/** The heuristic fallback of the PTR parser, used when no structural
    pattern yields a record: keyword action, asset and type from capital
    words, the amount cascade, the transaction date from the line or its
    neighbours, and the filing date from the document header. */
module Heuristics {
  import opened Wrappers
  import opened Text
  import opened Patterns
  import opened Context
  import opened PatternLaws

  // ---------------------------------------------------------------------
  // Action
  // ---------------------------------------------------------------------

  /** The action of a trade, as the records spell it. */
  datatype Action = Buy | Sell {
    function Name(): string {
      match this
      case Buy => "BUY"
      case Sell => "SELL"
    }
  }

  const BuyWords: seq<string> := ["BUY", "PURCHASE", "ACQUIRED", "ACQUISITION"]

  const SellWords: seq<string> := ["SELL", "SALE", "DISPOSED", "DISPOSAL"]

  /** `_extract_action`: a buy word anywhere in the upper-cased line wins;
      otherwise a sell word gives a sale; otherwise there is no action. */
  function ExtractAction(line: string): (r: Option<Action>)
    ensures r == Some(Buy) <==> ContainsAny(Upper(line), BuyWords)
    ensures r == Some(Sell) <==> !ContainsAny(Upper(line), BuyWords) && ContainsAny(Upper(line), SellWords)
  {
    var u := Upper(line);
    if AnyIn(u, BuyWords) then Some(Buy)
    else if AnyIn(u, SellWords) then Some(Sell)
    else None
  }

  /** Buy words are looked for first: a line that says both reads as a buy. */
  lemma BuyWordsFirst()
    ensures ExtractAction("Purchase after sale") == Some(Buy)
  {
    var u := Upper("Purchase after sale");
    assert u == "PURCHASE AFTER SALE";
    assert OccursAt(u, BuyWords[1], 0);
  }

  // ---------------------------------------------------------------------
  // Asset, ticker and type
  // ---------------------------------------------------------------------

  datatype AssetInfo = AssetInfo(asset: string, ticker: Option<string>, kind: TradeType)

  /** `_extract_asset_and_type`. A line that says CALL or PUT and holds a
      parenthesised ticker is an option on the text before the ticker;
      otherwise the first phrase of capital words is a stock, with the first
      parenthesised ticker if there is one. */
  function ExtractAssetAndType(line: string): (r: Option<AssetInfo>)
    ensures r.None? <==> FirstCapitalPhrase(line).None? && !(IsOptionLine(line) && FirstTicker(line).Some?)
    ensures r.Some? ==> (r.value.kind.IsOption() <==> IsOptionLine(line) && FirstTicker(line).Some?)
    ensures IsOptionLine(line) && FirstTicker(line).Some? ==> r == Some(OptionReading(line, FirstTicker(line).value))
    ensures r.Some? && r.value.kind == Stock ==>
      FirstCapitalPhrase(line).Some? && r.value.asset == FirstCapitalPhrase(line).value
    ensures r.Some? && r.value.kind == Stock ==> IsCapitalPhrase(r.value.asset) && Contains(line, r.value.asset)
    ensures r.Some? ==> (r.value.ticker.Some? <==> FirstTicker(line).Some?)
    ensures r.Some? && r.value.ticker.Some? ==> r.value.ticker.value == FirstTicker(line).value.symbol
  {
    var hit := FirstTicker(line);
    if IsOptionLine(line) && hit.Some? then Some(OptionReading(line, hit.value))
    else
      match FirstCapitalPhrase(line)
      case Some(p) => Some(StockReading(p, hit))
      case None => None
  }

  /** The stock reading of a capital phrase: the phrase, stripped (which
      leaves it as it is), with the ticker if one was found. */
  function StockReading(p: string, hit: Option<TickerHit>): (r: AssetInfo)
    requires IsCapitalPhrase(p)
    ensures r.asset == p && r.kind == Stock
    ensures r.ticker.Some? <==> hit.Some?
    ensures hit.Some? ==> r.ticker == Some(hit.value.symbol)
  {
    StripIdentity(p);
    AssetInfo(Strip(p), if hit.Some? then Some(hit.value.symbol) else None, Stock)
  }

  /** The option reading of a line with a ticker: the text before the
      ticker, the ticker, and a call whenever CALL occurs, else a put. */
  function OptionReading(line: string, hit: TickerHit): (r: AssetInfo)
    requires hit.start <= |line|
    requires IsOptionLine(line)
    ensures Contains(line[..hit.start], r.asset)
    ensures r.ticker == Some(hit.symbol)
    ensures r.kind.IsOption()
    ensures r.kind == OptionPut <==> !Contains(Upper(line), "CALL")
  {
    var kind := if Contains(Upper(line), "CALL") then OptionCall else OptionPut;
    AssetInfo(Strip(line[..hit.start]), Some(hit.symbol), kind)
  }

  /** CALL or PUT occurs in the upper-cased line. */
  predicate IsOptionLine(line: string) {
    Contains(Upper(line), "CALL") || Contains(Upper(line), "PUT")
  }

  // ---------------------------------------------------------------------
  // The amount cascade
  // ---------------------------------------------------------------------

  /** The first `q >= p` where `\$[0-9,]` starts. */
  function DollarIndexFrom(s: string, p: nat): (r: Option<nat>)
    requires p <= |s|
    ensures r.Some? ==> p <= r.value && r.value + 1 < |s| && DollarAt(s, r.value)
    ensures r.Some? ==> forall q :: p <= q < r.value ==> !DollarAt(s, q)
    ensures r.None? ==> forall q :: p <= q < |s| - 1 ==> !DollarAt(s, q)
    decreases |s| - p
  {
    if p + 1 < |s| && DollarAt(s, p) then Some(p)
    else if p < |s| then DollarIndexFrom(s, p + 1)
    else None
  }

  /** The groups of `\$([0-9,]+)-?\$?([0-9,]+)?`. */
  datatype RangeMatch = RangeMatch(low: string, high: Option<string>)

  /** `\$([0-9,]+)-?\$?([0-9,]+)?` at `q`. Every piece after the first number
      is optional, so the greedy choices stand: the first number is the whole
      run, then a dash and a dollar sign are taken when present, and the
      second number is the run that follows, if any. */
  function RangeAt(s: string, q: nat): (m: RangeMatch)
    requires q + 1 < |s| && DollarAt(s, q)
    ensures |m.low| > 0 && forall k :: 0 <= k < |m.low| ==> IsDigitOrComma(m.low[k])
    ensures m.high.Some? ==> |m.high.value| > 0
  {
    var e := NumberRunEnd(s, q + 1);
    NumberRunSpan(s, q + 1);
    var f := if e < |s| && s[e] == '-' then e + 1 else e;
    var g := if f < |s| && s[f] == '$' then f + 1 else f;
    RangeMatch(s[q + 1..e], if g < |s| && IsDigitOrComma(s[g]) then Some(s[g..NumberRunEnd(s, g)]) else None)
  }

  /** `word\s+\$([0-9,]+)` at `p` (the `Over` and `Under` patterns): the
      position of its dollar sign. */
  function LabelledDollar(s: string, word: string, p: nat): (r: Option<nat>)
    requires p <= |s|
    ensures r.Some? ==> r.value + 1 < |s| && DollarAt(s, r.value)
  {
    if OccursAt(s, word, p) then
      match Spaces1(s, p + |word|)
      case Some(q) => if q + 1 < |s| && DollarAt(s, q) then Some(q) else None
      case None => None
    else None
  }

  /** `re.search(word + r'\s+\$([0-9,]+)', s)`: the digits group. */
  function LabelledFrom(s: string, word: string, p: nat): (r: Option<string>)
    requires p <= |s|
    ensures r.Some? ==> exists q :: 0 <= q < |s| - 1 && DollarAt(s, q)
    decreases |s| - p
  {
    if p < |s| && LabelledDollar(s, word, p).Some? then
      var q := LabelledDollar(s, word, p).value;
      Some(s[q + 1..NumberRunEnd(s, q + 1)])
    else if p < |s| then LabelledFrom(s, word, p + 1)
    else None
  }

  /** `\$([0-9,]+)\s+to\s+\$([0-9,]+)` at `q`: both numbers. No piece can give
      characters back to another, so the match at `q` is unique. */
  function ToRangeAt(s: string, q: nat): (r: Option<(string, string)>)
    requires q + 1 < |s| && DollarAt(s, q)
  {
    var e := NumberRunEnd(s, q + 1);
    match Spaces1(s, e)
    case None => None
    case Some(f) =>
      if OccursAt(s, "to", f) then
        match Spaces1(s, f + 2)
        case None => None
        case Some(g) =>
          if g + 1 < |s| && DollarAt(s, g) then Some((s[q + 1..e], s[g + 1..NumberRunEnd(s, g + 1)]))
          else None
      else None
  }

  /** `re.search(r'\$([0-9,]+)\s+to\s+\$([0-9,]+)', s)`. */
  function ToRangeFrom(s: string, p: nat): (r: Option<(string, string)>)
    requires p <= |s|
    ensures r.Some? ==> exists q :: 0 <= q < |s| - 1 && DollarAt(s, q)
    decreases |s| - p
  {
    if p + 1 < |s| && DollarAt(s, p) && ToRangeAt(s, p).Some? then ToRangeAt(s, p)
    else if p < |s| then ToRangeFrom(s, p + 1)
    else None
  }

  /** `_extract_amount_range`: the cascade of four patterns, `"Unknown"` when
      none matches. The first pattern matches wherever a dollar sign stands
      before a digit or comma, and each later pattern needs such a place, so
      the result is `"Unknown"` exactly when there is none. */
  function AmountRange(line: string): (r: string)
    ensures r == "Unknown" <==> forall q :: 0 <= q < |line| - 1 ==> !DollarAt(line, q)
  {
    match DollarIndexFrom(line, 0)
    case Some(q) =>
      var m := RangeAt(line, q);
      var r := if m.high.Some? then "$" + m.low + "-$" + m.high.value else "$" + m.low;
      assert r[0] == '$';
      r
    case None =>
      match LabelledFrom(line, "Over", 0)
      case Some(g) => "Over $" + g
      case None =>
        match LabelledFrom(line, "Under", 0)
        case Some(g) => "Under $" + g
        case None =>
          match ToRangeFrom(line, 0)
          case Some(pair) => "$" + pair.0 + "-$" + pair.1
          case None => "Unknown"
  }

  /** The `Over`, `Under` and `to` patterns are never reached: whenever one
      of them would match, the first pattern has matched already, and the
      result is the first pattern's `$low` or `$low-$high`. */
  lemma LaterAmountPatternsUnreachable(line: string)
    requires || LabelledFrom(line, "Over", 0).Some?
             || LabelledFrom(line, "Under", 0).Some?
             || ToRangeFrom(line, 0).Some?
    ensures DollarIndexFrom(line, 0).Some?
    ensures var m := RangeAt(line, DollarIndexFrom(line, 0).value);
      AmountRange(line) == "$" + m.low + (if m.high.Some? then "-$" + m.high.value else "")
  {
    var w :| 0 <= w < |line| - 1 && DollarAt(line, w);
  }

  /** The compact range of a report line is read whole: `$1,001-$15,000`. */
  lemma CompactRangeRead()
    ensures AmountRange("$1,001-$15,000") == "$1,001-$15,000"
  {
    var s := "$1,001-$15,000";
    assert DollarAt(s, 0);
    assert DollarIndexFrom(s, 0) == Some(0);
    CompactRangeGroups();
    assert "$" + "1,001" + "-$" + "15,000" == s;
  }

  lemma CompactRangeGroups()
    ensures DollarAt("$1,001-$15,000", 0)
    ensures RangeAt("$1,001-$15,000", 0) == RangeMatch("1,001", Some("15,000"))
  {
    var s := "$1,001-$15,000";
    forall k | 1 <= k < 6
      ensures IsDigitOrComma(s[k])
    {
    }
    NumberRunEndExact(s, 1, 6);
    forall k | 8 <= k < 14
      ensures IsDigitOrComma(s[k])
    {
    }
    NumberRunEndExact(s, 8, 14);
    assert s[1..6] == "1,001" && s[8..14] == "15,000";
  }

  // ---------------------------------------------------------------------
  // Dates
  // ---------------------------------------------------------------------

  /** The first line of `lines[j..hi]` holding a whole-word date, and that date. */
  function FirstDateIn(lines: seq<string>, j: nat, hi: nat): (r: Option<string>)
    requires j <= hi <= |lines|
    ensures r.Some? ==> IsDate(r.value)
    ensures r.Some? ==> exists k :: (j <= k < hi && r == FirstDate(lines[k])
      && forall k' :: j <= k' < k ==> FirstDate(lines[k']).None?)
    ensures r.None? <==> forall k :: j <= k < hi ==> FirstDate(lines[k]).None?
  {
    match DateLineIn(lines, j, hi)
    case Some(k) => FirstDate(lines[k])
    case None => None
  }

  /** The index of the first line of `lines[j..hi]` holding a whole-word date. */
  function DateLineIn(lines: seq<string>, j: nat, hi: nat): (r: Option<nat>)
    requires j <= hi <= |lines|
    ensures r.Some? ==> j <= r.value < hi && FirstDate(lines[r.value]).Some?
    ensures r.Some? ==> forall k :: j <= k < r.value ==> FirstDate(lines[k]).None?
    ensures r.None? ==> forall k :: j <= k < hi ==> FirstDate(lines[k]).None?
    decreases hi - j
  {
    if j == hi then None
    else if FirstDate(lines[j]).Some? then Some(j)
    else DateLineIn(lines, j + 1, hi)
  }

  /** The neighbourhood read for a transaction date: `[max(0, i - 2), min(len, i + 3))`. */
  function NearLow(i: nat): nat { if i >= 2 then i - 2 else 0 }

  function NearHigh(lines: seq<string>, i: nat): nat { if i + 3 < |lines| then i + 3 else |lines| }

  /** `_extract_transaction_date`: the first date of the line itself, then of
      the lines from two above to two below it, in order; `"Unknown"` when
      none of them holds one. */
  function TransactionDate(lines: seq<string>, i: nat): (r: string)
    requires i < |lines|
    ensures r == "Unknown" || IsDate(r)
    ensures FirstDate(lines[i]).Some? ==> r == FirstDate(lines[i]).value
    ensures r == "Unknown" <==> forall k :: NearLow(i) <= k < NearHigh(lines, i) ==> FirstDate(lines[k]).None?
    ensures FirstDate(lines[i]).None? && r != "Unknown" ==>
      exists k :: (NearLow(i) <= k < NearHigh(lines, i) && FirstDate(lines[k]) == Some(r)
        && forall k' :: NearLow(i) <= k' < k ==> FirstDate(lines[k']).None?)
  {
    match FirstDate(lines[i])
    case Some(d) => d
    case None =>
      match FirstDateIn(lines, NearLow(i), NearHigh(lines, i))
      case Some(d) => d
      case None => "Unknown"
  }

  const FilingKeywords: seq<string> := ["FILING DATE", "DATE FILED", "REPORT DATE"]

  /** A header line naming the filing date and holding a date. */
  predicate FilingLine(line: string) {
    ContainsAny(Upper(line), FilingKeywords) && FirstDate(line).Some?
  }

  /** The index of the first element of `s[j..]` that satisfies `p`. */
  function FirstWhere<T>(s: seq<T>, p: T -> bool, j: nat): (r: Option<nat>)
    requires j <= |s|
    ensures r.Some? ==> j <= r.value < |s| && p(s[r.value])
    ensures r.Some? ==> forall k :: j <= k < r.value ==> !p(s[k])
    ensures r.None? ==> forall k :: j <= k < |s| ==> !p(s[k])
    decreases |s| - j
  {
    if j == |s| then None
    else if p(s[j]) then Some(j)
    else FirstWhere(s, p, j + 1)
  }

  /** The header the filing date is looked for in: the first ten lines. */
  function Header(lines: seq<string>): (h: seq<string>)
    ensures |h| <= 10
  {
    if |lines| <= 10 then lines else lines[..10]
  }

  /** `_extract_filing_date`: the first date on a header line that names the
      filing date, among the first ten lines only. */
  function FilingDate(lines: seq<string>): (r: string)
    ensures r == "Unknown" || IsDate(r)
    ensures r == "Unknown" <==> forall k :: 0 <= k < |Header(lines)| ==> !FilingLine(Header(lines)[k])
    ensures r != "Unknown" ==> exists k :: (0 <= k < |Header(lines)| && FilingLine(Header(lines)[k])
      && FirstDate(Header(lines)[k]) == Some(r) && forall k' :: 0 <= k' < k ==> !FilingLine(Header(lines)[k']))
  {
    var h := Header(lines);
    match FirstWhere(h, FilingLine, 0)
    case Some(k) => FirstDate(h[k]).value
    case None => "Unknown"
  }

  /** A filing-date line below the first ten is never read. */
  lemma {:induction false} FilingDateIgnoresBody(lines: seq<string>, more: seq<string>)
    requires |lines| >= 10
    ensures FilingDate(lines + more) == FilingDate(lines)
  {
    assert Header(lines + more) == Header(lines);
  }
}

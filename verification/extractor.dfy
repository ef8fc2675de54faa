/** The field extractor of the PTR parser (`_parse_trade_line` and
    `_parse_ptr_trade_line`): the three structural grammars with their
    amount completion from the next line, then the heuristic record. */
module Extractor {
  import opened Wrappers
  import opened Text
  import opened Patterns
  import opened PatternLaws
  import opened Context
  import opened Heuristics

  /** A trade record. A structural match gives a `PtrTrade`, with the
      notification date and a description; the heuristic path gives a
      `KeywordTrade`, with the filing date and an optional ticker. */
  datatype Trade =
    | PtrTrade(
        asset: string,
        ticker: string,
        kind: TradeType,
        action: Action,
        amount: string,
        transactionDate: string,
        notificationDate: string,
        description: string,
        rawLine: string)
    | KeywordTrade(
        asset: string,
        foundTicker: Option<string>,
        kind: TradeType,
        action: Action,
        amount: string,
        transactionDate: string,
        filingDate: string,
        rawLine: string)

  /** `'BUY' if action_code.upper() == 'P' else 'SELL'`. */
  function ActionOfCode(code: char): (a: Action)
    ensures a == Buy <==> code == 'P' || code == 'p'
  {
    if ToUpperChar(code) == 'P' then Buy else Sell
  }

  // ---------------------------------------------------------------------
  // Amount completion
  // ---------------------------------------------------------------------

  /** Pattern 1: a trimmed amount that ends in a dash is completed with the
      first dollar token of the next line, when there is a next line and it
      holds one; every other amount is kept trimmed. */
  function CompleteDangling(amount: string, lines: seq<string>, i: nat): (r: string)
    requires i < |lines|
    ensures StartsWith(r, Strip(amount))
    ensures r != Strip(amount) <==>
      EndsWith(Strip(amount), "-") && i + 1 < |lines| && FirstDollar(lines[i + 1]).Some?
    ensures r != Strip(amount) ==> r[|Strip(amount)|..] == " " + FirstDollar(lines[i + 1]).value
  {
    var a := Strip(amount);
    if EndsWith(a, "-") && i + 1 < |lines| then AppendDollar(a, lines[i + 1]) else a
  }

  /** `a + " " + token` for the first dollar token of `next`, or `a` alone. */
  function AppendDollar(a: string, next: string): (r: string)
    ensures StartsWith(r, a)
    ensures r != a <==> FirstDollar(next).Some?
    ensures r != a ==> r[|a|..] == " " + FirstDollar(next).value
  {
    match FirstDollar(next)
    case Some(t) =>
      assert (a + " " + t)[..|a|] == a;
      assert (a + " " + t)[|a|..] == " " + t;
      a + " " + t
    case None => a
  }

  /** Pattern 3: an amount that already holds ` - ` or ` -$` is kept trimmed;
      otherwise the next line's first dollar token is appended when present. */
  function NoTickerAmount(amount: string, next: string): string {
    if Contains(amount, " - ") || Contains(amount, " -$") then Strip(amount)
    else AppendDollar(Strip(amount), next)
  }

  /** The completeness test of pattern 3 never fires on what the pattern
      captures: a captured amount holds a dash only as its last character. */
  lemma CompletenessTestNeverFires(a: string)
    requires IsPtrAmount(a)
    ensures !Contains(a, " - ") && !Contains(a, " -$")
  {
    forall i | 0 <= i <= |a| - 3
      ensures !OccursAt(a, " - ", i) && !OccursAt(a, " -$", i)
    {
      if i + 1 < |a| - 1 {
        assert IsDigitOrComma(a[i + 1]) || IsSpace(a[i + 1]);
      }
    }
  }

  /** Hence pattern 3 always appends the next line's first dollar token when
      there is one. */
  lemma NoTickerAlwaysAppends(a: string, next: string)
    requires IsPtrAmount(a)
    ensures NoTickerAmount(a, next) == AppendDollar(Strip(a), next)
  {
    CompletenessTestNeverFires(a);
  }

  // ---------------------------------------------------------------------
  // The three structural grammars
  // ---------------------------------------------------------------------

  /** The record of a structural match on line `i`: type from the five-line
      window, description only for options, action from the code. */
  function PtrRecord(lines: seq<string>, i: nat, c: Capture, ticker: string, amount: string): (t: Trade)
    requires i < |lines|
    ensures t.PtrTrade? && t.ticker == ticker && t.amount == amount
    ensures t.asset == Strip(c.asset) && t.transactionDate == Strip(c.date1) && t.notificationDate == Strip(c.date2)
    ensures t.kind == KindAt(lines, i)
    ensures t.action == Buy <==> c.code == 'P' || c.code == 'p'
    ensures t.description == (if t.kind.IsOption() then Description(lines, i) else "")
  {
    var kind := KindAt(lines, i);
    PtrTrade(
      Strip(c.asset), ticker, kind, ActionOfCode(c.code), amount,
      Strip(c.date1), Strip(c.date2),
      if kind.IsOption() then Description(lines, i) else "",
      Strip(lines[i]))
  }

  /** Which structural grammar reads line `i`: pattern 1 whenever it
      matches; pattern 2 when there is a next line and it holds a ticker;
      pattern 3 when there is a next line; none otherwise. */
  datatype Reading = SameLineTicker(c: Capture) | NextLineTicker(c: Capture, hit: TickerHit) | NoTicker(c: Capture)

  function StructuralReading(lines: seq<string>, i: nat): (r: Option<Reading>)
    requires i < |lines|
    ensures r.Some? && r.value.SameLineTicker? <==> MatchTickerForm(lines[i]).Some?
    ensures r.Some? && r.value.NextLineTicker? <==>
      && MatchTickerForm(lines[i]).None? && i + 1 < |lines|
      && MatchPartialForm(lines[i]).Some? && FirstTicker(lines[i + 1]).Some?
    ensures r.Some? && r.value.NoTicker? ==> i + 1 < |lines| && MatchPlainForm(lines[i]).Some?
    ensures r.None? <==>
      && MatchTickerForm(lines[i]).None?
      && (i + 1 < |lines| ==> MatchPlainForm(lines[i]).None? &&
                              (MatchPartialForm(lines[i]).None? || FirstTicker(lines[i + 1]).None?))
    ensures r.Some? ==> WellFormed(r.value.c)
  {
    var line := lines[i];
    match MatchTickerForm(line)
    case Some(c) => Some(SameLineTicker(c))
    case None =>
      if i + 1 < |lines| && MatchPartialForm(line).Some? && FirstTicker(lines[i + 1]).Some? then
        Some(NextLineTicker(MatchPartialForm(line).value, FirstTicker(lines[i + 1]).value))
      else if i + 1 < |lines| && MatchPlainForm(line).Some? then
        Some(NoTicker(MatchPlainForm(line).value))
      else None
  }

  /** `_parse_ptr_trade_line`. */
  function ParsePtrTradeLine(lines: seq<string>, i: nat): (r: Option<Trade>)
    requires i < |lines|
    ensures r.Some? <==> StructuralReading(lines, i).Some?
    ensures r.Some? ==> r.value.PtrTrade?
    ensures r.Some? ==> r.value.ticker == "N/A" || IsTickerSymbol(r.value.ticker)
    ensures r.Some? ==> StartsWith(r.value.amount, "$")
    ensures r.Some? && !r.value.kind.IsOption() ==> r.value.description == ""
  {
    match StructuralReading(lines, i)
    case None => None
    case Some(reading) => Some(ReadingRecord(lines, i, reading))
  }

  /** The record of one structural reading: the ticker of the line, of the
      next line, or `N/A`, and the amount completed as that grammar does. */
  function ReadingRecord(lines: seq<string>, i: nat, reading: Reading): (t: Trade)
    requires i < |lines| && WellFormed(reading.c)
    requires reading.SameLineTicker? ==> reading.c.ticker.Some?
    requires reading.NextLineTicker? ==> IsTickerSymbol(reading.hit.symbol)
    requires !reading.SameLineTicker? ==> i + 1 < |lines|
    ensures t.PtrTrade? && (t.ticker == "N/A" || IsTickerSymbol(t.ticker))
    ensures StartsWith(t.amount, "$")
    ensures !t.kind.IsOption() ==> t.description == ""
  {
    var c := reading.c;
    AmountIsTrimmed(c.amount);
    match reading
    case SameLineTicker(_) =>
      StripIdentity(c.ticker.value);
      PtrRecord(lines, i, c, Strip(c.ticker.value), CompleteDangling(c.amount, lines, i))
    case NextLineTicker(_, hit) =>
      PtrRecord(lines, i, c, hit.symbol, AppendDollar(Strip(c.amount), lines[i + 1]))
    case NoTicker(_) =>
      NoTickerAlwaysAppends(c.amount, lines[i + 1]);
      PtrRecord(lines, i, c, "N/A", NoTickerAmount(c.amount, lines[i + 1]))
  }

  /** A captured amount is trimmed and starts with a dollar sign; so does any
      string it starts. */
  lemma AmountIsTrimmed(a: string)
    requires IsPtrAmount(a)
    ensures Strip(a) == a
    ensures forall r :: StartsWith(r, a) ==> StartsWith(r, "$")
  {
    StripIdentity(a);
    forall r | StartsWith(r, a)
      ensures StartsWith(r, "$")
    {
      assert r[0] == a[0];
    }
  }

  // ---------------------------------------------------------------------
  // The heuristic record and the whole line
  // ---------------------------------------------------------------------

  /** The heuristic path of `_parse_trade_line`: an action, an asset longer
      than two characters, then amount, dates and the trimmed line. */
  function KeywordRecord(lines: seq<string>, i: nat): (r: Option<Trade>)
    requires i < |lines|
    ensures r.Some? <==>
      && ExtractAction(lines[i]).Some?
      && ExtractAssetAndType(lines[i]).Some? && |ExtractAssetAndType(lines[i]).value.asset| > 2
    ensures r.Some? ==> r.value.KeywordTrade? && |r.value.asset| > 2
    ensures r.Some? ==> r.value.transactionDate == "Unknown" || IsDate(r.value.transactionDate)
    ensures r.Some? ==> r.value.filingDate == "Unknown" || IsDate(r.value.filingDate)
  {
    var line := lines[i];
    match ExtractAction(line)
    case None => None
    case Some(action) =>
      match ExtractAssetAndType(line)
      case None => None
      case Some(info) =>
        if |info.asset| > 2 then
          Some(KeywordTrade(info.asset, info.ticker, info.kind, action, AmountRange(line),
                            TransactionDate(lines, i), FilingDate(lines), Strip(line)))
        else None
  }

  /** `_parse_trade_line`: the structural record when there is one, else the
      heuristic record. */
  function ParseTradeLine(lines: seq<string>, i: nat): (r: Option<Trade>)
    requires i < |lines|
    ensures r.Some? && r.value.PtrTrade? <==> StructuralReading(lines, i).Some?
    ensures r.Some? && r.value.KeywordTrade? ==> ExtractAction(lines[i]).Some? && |r.value.asset| > 2
    ensures r.None? ==> StructuralReading(lines, i).None?
    ensures StructuralReading(lines, i).Some? ==> r == ParsePtrTradeLine(lines, i)
    ensures StructuralReading(lines, i).None? ==> r == KeywordRecord(lines, i)
  {
    match ParsePtrTradeLine(lines, i)
    case Some(t) => Some(t)
    case None => KeywordRecord(lines, i)
  }

  // ---------------------------------------------------------------------
  // Round trips through a rendered line
  // ---------------------------------------------------------------------

  /** A pattern-1 line printed from its groups is read back into a record
      holding exactly those groups; a complete amount is kept as printed. */
  lemma SameLineRecordRoundTrip(lines: seq<string>, i: nat, c: Capture)
    requires i < |lines| && TickerRenderable(c) && lines[i] == RenderTickerForm(c)
    requires !EndsWith(c.amount, "-")
    ensures var r := ParsePtrTradeLine(lines, i);
      && r.Some? && r.value.asset == c.asset && r.value.ticker == c.ticker.value
      && (r.value.action == Buy <==> c.code == 'P')
      && r.value.transactionDate == c.date1 && r.value.notificationDate == c.date2
      && r.value.amount == c.amount
  {
    TickerFormRoundTrip(c);
    CapturedTextIsTrimmed(c);
    SameLineRecordOf(lines, i, c);
  }

  lemma SameLineRecordOf(lines: seq<string>, i: nat, c: Capture)
    requires i < |lines| && MatchTickerForm(lines[i]) == Some(c)
    requires !EndsWith(c.amount, "-")
    requires Strip(c.asset) == c.asset && Strip(c.date1) == c.date1 && Strip(c.date2) == c.date2
    requires Strip(c.amount) == c.amount
    ensures var r := ParsePtrTradeLine(lines, i);
      && r.Some? && r.value.asset == c.asset && r.value.ticker == c.ticker.value
      && (r.value.action == Buy <==> c.code == 'P')
      && r.value.transactionDate == c.date1 && r.value.notificationDate == c.date2
      && r.value.amount == c.amount
  {
    assert StructuralReading(lines, i) == Some(SameLineTicker(c));
    RecordOfReading(lines, i, SameLineTicker(c));
    assert ParsePtrTradeLine(lines, i) == Some(ReadingRecord(lines, i, SameLineTicker(c)));
  }

  /** A pattern-2 line followed by a ticker line is read back into a record
      with its groups, the ticker of the next line and the amount completed
      by the next line's first dollar token. */
  lemma NextLineRecordRoundTrip(lines: seq<string>, i: nat, c: Capture, partial: bool)
    requires i + 1 < |lines| && CodeRenderable(c) && lines[i] == RenderCodeForm(c, partial)
    requires MatchTickerForm(lines[i]).None?
    requires FirstTicker(lines[i + 1]).Some?
    ensures var r := ParsePtrTradeLine(lines, i);
      && r.Some? && r.value.asset == c.asset
      && r.value.ticker == FirstTicker(lines[i + 1]).value.symbol
      && (r.value.action == Buy <==> c.code == 'P')
      && r.value.transactionDate == c.date1 && r.value.notificationDate == c.date2
      && r.value.amount == AppendDollar(c.amount, lines[i + 1])
  {
    PartialFormRoundTrip(c, partial);
    CapturedTextIsTrimmed(c);
    NextLineRecordOf(lines, i, c);
  }

  lemma NextLineRecordOf(lines: seq<string>, i: nat, c: Capture)
    requires i + 1 < |lines| && MatchPartialForm(lines[i]) == Some(c)
    requires MatchTickerForm(lines[i]).None?
    requires FirstTicker(lines[i + 1]).Some?
    requires Strip(c.asset) == c.asset && Strip(c.date1) == c.date1 && Strip(c.date2) == c.date2
    ensures var r := ParsePtrTradeLine(lines, i);
      && r.Some? && r.value.asset == c.asset
      && r.value.ticker == FirstTicker(lines[i + 1]).value.symbol
      && (r.value.action == Buy <==> c.code == 'P')
      && r.value.transactionDate == c.date1 && r.value.notificationDate == c.date2
      && r.value.amount == AppendDollar(c.amount, lines[i + 1])
  {
    var hit := FirstTicker(lines[i + 1]).value;
    assert StructuralReading(lines, i) == Some(NextLineTicker(c, hit));
    RecordOfReading(lines, i, NextLineTicker(c, hit));
    assert ParsePtrTradeLine(lines, i) == Some(ReadingRecord(lines, i, NextLineTicker(c, hit)));
  }

  /** A pattern-3 line with no ticker below it is read back with ticker
      `N/A`, and its amount is always completed from the next line. */
  lemma NoTickerRecordRoundTrip(lines: seq<string>, i: nat, c: Capture)
    requires i + 1 < |lines| && CodeRenderable(c) && lines[i] == RenderCodeForm(c, false)
    requires MatchTickerForm(lines[i]).None?
    requires FirstTicker(lines[i + 1]).None?
    ensures var r := ParsePtrTradeLine(lines, i);
      && r.Some? && r.value.asset == c.asset && r.value.ticker == "N/A"
      && (r.value.action == Buy <==> c.code == 'P')
      && r.value.transactionDate == c.date1 && r.value.notificationDate == c.date2
      && r.value.amount == AppendDollar(c.amount, lines[i + 1])
  {
    PlainFormRoundTrip(c);
    CapturedTextIsTrimmed(c);
    NoTickerRecordOf(lines, i, c);
  }

  lemma NoTickerRecordOf(lines: seq<string>, i: nat, c: Capture)
    requires i + 1 < |lines| && MatchPlainForm(lines[i]) == Some(c)
    requires MatchTickerForm(lines[i]).None?
    requires FirstTicker(lines[i + 1]).None?
    requires Strip(c.asset) == c.asset && Strip(c.date1) == c.date1 && Strip(c.date2) == c.date2
    ensures var r := ParsePtrTradeLine(lines, i);
      && r.Some? && r.value.asset == c.asset && r.value.ticker == "N/A"
      && (r.value.action == Buy <==> c.code == 'P')
      && r.value.transactionDate == c.date1 && r.value.notificationDate == c.date2
      && r.value.amount == AppendDollar(c.amount, lines[i + 1])
  {
    assert StructuralReading(lines, i) == Some(NoTicker(c));
    RecordOfReading(lines, i, NoTicker(c));
    assert ParsePtrTradeLine(lines, i) == Some(ReadingRecord(lines, i, NoTicker(c)));
  }

  /** The record a structural reading yields, field by field, for groups
      that are already trimmed. */
  lemma RecordOfReading(lines: seq<string>, i: nat, reading: Reading)
    requires i < |lines| && WellFormed(reading.c)
    requires reading.SameLineTicker? ==> reading.c.ticker.Some?
    requires reading.NextLineTicker? ==> IsTickerSymbol(reading.hit.symbol)
    requires !reading.SameLineTicker? ==> i + 1 < |lines|
    requires var c := reading.c;
      Strip(c.asset) == c.asset && Strip(c.date1) == c.date1 && Strip(c.date2) == c.date2
    ensures var t := ReadingRecord(lines, i, reading); var c := reading.c;
      && t.asset == c.asset
      && (t.action == Buy <==> c.code == 'P' || c.code == 'p')
      && t.transactionDate == c.date1 && t.notificationDate == c.date2
    ensures reading.SameLineTicker? ==>
      && ReadingRecord(lines, i, reading).ticker == reading.c.ticker.value
      && ReadingRecord(lines, i, reading).amount == CompleteDangling(reading.c.amount, lines, i)
    ensures reading.NextLineTicker? ==>
      && ReadingRecord(lines, i, reading).ticker == reading.hit.symbol
      && ReadingRecord(lines, i, reading).amount == AppendDollar(reading.c.amount, lines[i + 1])
    ensures reading.NoTicker? ==>
      && ReadingRecord(lines, i, reading).ticker == "N/A"
      && ReadingRecord(lines, i, reading).amount == AppendDollar(reading.c.amount, lines[i + 1])
  {
    var c := reading.c;
    AmountIsTrimmed(c.amount);
    match reading
    case SameLineTicker(_) =>
      StripIdentity(c.ticker.value);
    case NextLineTicker(_, _) =>
    case NoTicker(_) =>
      NoTickerAlwaysAppends(c.amount, lines[i + 1]);
  }

  /** A date has no whitespace at its ends: it starts with a digit of the
      month and ends with the last digit of the year. */
  lemma DateIsTrimmed(d: string)
    requires IsDate(d)
    ensures Strip(d) == d
  {
    DateStartsWithDigit(d);
    var j := DayOrMonth(d, 0).value;
    var k := DayOrMonth(d, j).value;
    assert k + 4 == |d| && IsDigit(d[k + 3]);
    StripIdentity(d);
  }

  /** Printed groups have no whitespace at their ends. */
  lemma CapturedTextIsTrimmed(c: Capture)
    requires |c.asset| > 0 && !IsSpace(c.asset[0]) && !IsSpace(c.asset[|c.asset| - 1])
    requires IsDate(c.date1) && IsDate(c.date2) && CanonicalAmount(c.amount)
    ensures Strip(c.asset) == c.asset && Strip(c.date1) == c.date1 && Strip(c.date2) == c.date2
    ensures Strip(c.amount) == c.amount
  {
    StripIdentity(c.asset);
    DateIsTrimmed(c.date1);
    DateIsTrimmed(c.date2);
    StripIdentity(c.amount);
  }

  // ---------------------------------------------------------------------
  // Display
  // ---------------------------------------------------------------------

  /** The ticker a record carries, if it carries a non-empty one (Python's
      truthiness of `trade.get('ticker')`). */
  function ShownTicker(t: Trade): Option<string> {
    match t
    case PtrTrade(_, ticker, _, _, _, _, _, _, _) => if ticker != "" then Some(ticker) else None
    case KeywordTrade(_, found, _, _, _, _, _, _) => if found.Some? && found.value != "" then found else None
  }

  /** The ` (TICKER)` part of the display line, empty without a ticker. */
  function TickerInfo(t: Trade): (r: string)
    ensures ShownTicker(t).Some? ==> r == " (" + ShownTicker(t).value + ")"
    ensures ShownTicker(t).None? <==> r == ""
  {
    match t
    case PtrTrade(_, ticker, _, _, _, _, _, _, _) => if ticker != "" then " (" + ticker + ")" else ""
    case KeywordTrade(_, found, _, _, _, _, _, _) =>
      if found.Some? && found.value != "" then " (" + found.value + ")" else ""
  }

  /** `format_trade_for_display`:
      `ACTION TYPE - asset (TICKER) - amount - transaction date`. */
  function FormatTradeForDisplay(t: Trade): (r: string)
    ensures StartsWith(r, t.action.Name() + " " + Upper(t.kind.Value()) + " - " + t.asset)
    ensures EndsWith(r, " - " + t.amount + " - " + t.transactionDate)
    ensures r == (t.action.Name() + " " + Upper(t.kind.Value()) + " - " + t.asset) + TickerInfo(t)
      + (" - " + t.amount + " - " + t.transactionDate)
  {
    var head := t.action.Name() + " " + Upper(t.kind.Value()) + " - " + t.asset;
    var tail := " - " + t.amount + " - " + t.transactionDate;
    var r := head + TickerInfo(t) + tail;
    assert r[..|head|] == head;
    assert r[|r| - |tail|..] == tail;
    r
  }
}

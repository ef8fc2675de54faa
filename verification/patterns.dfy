/** The regular expressions of the PTR parser, as capture functions.

    Each function returns what Python's `re.search` returns for that pattern:
    the match at the leftmost start position, with the lazy `.*?` / `[^P]*?`
    asset segment as short as the rest of the pattern allows. Inside these
    particular patterns every greedy piece is forced (a shorter `\s*`, `\d{1,2}`
    or `[A-Z]{1,5}` would leave a character the next piece cannot accept), so
    the only genuine search is over the start position and the end of the lazy
    asset segment; both are written as recursion over positions. */
module Patterns {
  import opened Wrappers
  import opened Text

  predicate IsDigitOrComma(c: char) { IsDigit(c) || c == ',' }

  // ---------------------------------------------------------------------
  // Greedy building blocks
  // ---------------------------------------------------------------------

  /** `\s*` from `i`: the first position at or after `i` that is not whitespace. */
  function SkipSpaces(s: string, i: nat): (j: nat)
    requires i <= |s|
    ensures i <= j <= |s|
    decreases |s| - i
  {
    if i < |s| && IsSpace(s[i]) then SkipSpaces(s, i + 1) else i
  }

  /** `\s+` from `i`: at least one whitespace character, then as many as there are. */
  function Spaces1(s: string, i: nat): (r: Option<nat>)
    requires i <= |s|
    ensures r.Some? <==> i < |s| && IsSpace(s[i])
    ensures r.Some? ==> r.value == SkipSpaces(s, i)
  {
    if i < |s| && IsSpace(s[i]) then Some(SkipSpaces(s, i)) else None
  }

  /** End of the maximal run of upper-case letters starting at `i` (`[A-Z]*`). */
  function UpperRunEnd(s: string, i: nat): (j: nat)
    requires i <= |s|
    ensures i <= j <= |s|

    decreases |s| - i
  {
    if i < |s| && IsUpper(s[i]) then UpperRunEnd(s, i + 1) else i
  }

  /** End of the maximal run of `[\d,]` starting at `i`. */
  function NumberRunEnd(s: string, i: nat): (j: nat)
    requires i <= |s|
    ensures i <= j <= |s|

    decreases |s| - i
  {
    if i < |s| && IsDigitOrComma(s[i]) then NumberRunEnd(s, i + 1) else i
  }

  lemma SkipSpacesSpan(s: string, i: nat)
    requires i <= |s|
    ensures forall k :: i <= k < SkipSpaces(s, i) ==> IsSpace(s[k])
    ensures SkipSpaces(s, i) < |s| ==> !IsSpace(s[SkipSpaces(s, i)])
    decreases |s| - i
  {
    if i < |s| && IsSpace(s[i]) {
      SkipSpacesSpan(s, i + 1);
    }
  }

  lemma UpperRunSpan(s: string, i: nat)
    requires i <= |s|
    ensures forall k :: i <= k < UpperRunEnd(s, i) ==> IsUpper(s[k])
    ensures UpperRunEnd(s, i) < |s| ==> !IsUpper(s[UpperRunEnd(s, i)])
    decreases |s| - i
  {
    if i < |s| && IsUpper(s[i]) {
      UpperRunSpan(s, i + 1);
    }
  }

  lemma NumberRunSpan(s: string, i: nat)
    requires i <= |s|
    ensures forall k :: i <= k < NumberRunEnd(s, i) ==> IsDigitOrComma(s[k])
    ensures NumberRunEnd(s, i) < |s| ==> !IsDigitOrComma(s[NumberRunEnd(s, i)])
    decreases |s| - i
  {
    if i < |s| && IsDigitOrComma(s[i]) {
      NumberRunSpan(s, i + 1);
    }
  }

  /** `\d{1,2}/` at `i`: the position after the slash. */
  function DayOrMonth(s: string, i: nat): (r: Option<nat>)
    requires i <= |s|
    ensures r.Some? ==> i + 2 <= r.value <= i + 3 && r.value <= |s|
  {
    if i + 1 < |s| && IsDigit(s[i]) && s[i + 1] == '/' then Some(i + 2)
    else if i + 2 < |s| && IsDigit(s[i]) && IsDigit(s[i + 1]) && s[i + 2] == '/' then Some(i + 3)
    else None
  }

  /** `\d{1,2}/\d{1,2}/\d{4}` at `i`: the position after the year. */
  function DateEnd(s: string, i: nat): (r: Option<nat>)
    requires i <= |s|
    ensures r.Some? ==> i + 8 <= r.value <= |s|
  {
    match DayOrMonth(s, i)
    case None => None
    case Some(j) =>
      match DayOrMonth(s, j)
      case None => None
      case Some(k) =>
        if k + 4 <= |s| && IsDigit(s[k]) && IsDigit(s[k + 1]) && IsDigit(s[k + 2]) && IsDigit(s[k + 3])
        then Some(k + 4)
        else None
  }

  /** `\$[\d,]+(?:\s*-)?` at `i`: the position after the amount, keeping the
      dangling dash when one follows the number. */
  function AmountEnd(s: string, i: nat): (r: Option<nat>)
    requires i <= |s|
    ensures r.Some? ==> i + 2 <= r.value <= |s|
  {
    if i + 1 < |s| && s[i] == '$' && IsDigitOrComma(s[i + 1]) then
      var e := NumberRunEnd(s, i + 1);
      var f := SkipSpaces(s, e);
      Some(if f < |s| && s[f] == '-' then f + 1 else e)
    else None
  }

  // ---------------------------------------------------------------------
  // Shapes of captured text
  // ---------------------------------------------------------------------

  /** `MM/DD/YYYY` with one- or two-digit month and day: a string the date
      piece of the patterns consumes whole. */
  predicate IsDate(d: string) {
    DateEnd(d, 0) == Some(|d|)
  }

  /** What the amount group captures: `$`, digits and commas, then optionally
      whitespace and a dash. A dash can only be the last character and a `$`
      only the first. */
  predicate IsPtrAmount(a: string) {
    && |a| >= 2 && a[0] == '$' && IsDigitOrComma(a[1])
    && (forall k :: 1 <= k < |a| - 1 ==> IsDigitOrComma(a[k]) || IsSpace(a[k]))
    && (IsDigitOrComma(a[|a| - 1]) || a[|a| - 1] == '-')
  }

  /** What `(\$[\d,]+)` captures. */
  predicate IsDollarToken(t: string) {
    |t| >= 2 && t[0] == '$' && forall k :: 1 <= k < |t| ==> IsDigitOrComma(t[k])
  }

  /** A ticker symbol as `\(([A-Z]{1,5})\)` captures it. */
  predicate IsTickerSymbol(t: string) {
    1 <= |t| <= 5 && forall k :: 0 <= k < |t| ==> IsUpper(t[k])
  }

  /** The date piece looks only at the characters it consumes. */
  lemma DateEndLocal(s: string, p: nat, d: string)
    requires OccursAt(s, d, p)
    ensures IsDate(d) <==> DateEnd(s, p) == Some(p + |d|)
  {
    assert forall k :: 0 <= k < |d| ==> d[k] == s[p + k];
    if DateEnd(s, p) == Some(p + |d|) {
      var j := DayOrMonth(s, p).value;
      var k := DayOrMonth(s, j).value;
      assert DayOrMonth(d, 0) == Some(j - p);
      assert DayOrMonth(d, j - p) == Some(k - p);
    }
    if IsDate(d) {
      var j := DayOrMonth(d, 0).value;
      var k := DayOrMonth(d, j).value;
      assert DayOrMonth(s, p) == Some(p + j);
      assert DayOrMonth(s, p + j) == Some(p + k);
    }
  }

  lemma DateEndShape(s: string, i: nat)
    requires i <= |s| && DateEnd(s, i).Some?
    ensures IsDate(s[i..DateEnd(s, i).value])
  {
    DateEndLocal(s, i, s[i..DateEnd(s, i).value]);
  }

  lemma AmountEndShape(s: string, i: nat)
    requires i <= |s| && AmountEnd(s, i).Some?
    ensures IsPtrAmount(s[i..AmountEnd(s, i).value])
  {
    NumberRunSpan(s, i + 1);
    SkipSpacesSpan(s, NumberRunEnd(s, i + 1));
  }

  // ---------------------------------------------------------------------
  // The three structural patterns
  // ---------------------------------------------------------------------

  /** The groups of one structural match: asset, ticker (pattern 1 only),
      action code, transaction and notification dates, amount. */
  datatype Capture = Capture(
    asset: string,
    ticker: Option<string>,
    code: char,
    date1: string,
    date2: string,
    amount: string)

  /** Well-formed groups, as every structural match produces them. */
  predicate WellFormed(c: Capture) {
    && |c.asset| > 0 && IsUpper(c.asset[0])
    && (c.ticker.Some? ==> IsTickerSymbol(c.ticker.value))
    && (c.code == 'P' || c.code == 'S')
    && IsDate(c.date1) && IsDate(c.date2)
    && IsPtrAmount(c.amount)
  }

  datatype Dates = Dates(date1: string, date2: string, amount: string)

  /** `\s+(date)\s+(date)\s+(amount)` at `i`. */
  function DatesAndAmount(s: string, i: nat): Option<Dates>
    requires i <= |s|
  {
    match Spaces1(s, i)
    case None => None
    case Some(p1) =>
      match DateEnd(s, p1)
      case None => None
      case Some(q1) =>
        match Spaces1(s, q1)
        case None => None
        case Some(p2) =>
          match DateEnd(s, p2)
          case None => None
          case Some(q2) =>
            match Spaces1(s, q2)
            case None => None
            case Some(p3) =>
              match AmountEnd(s, p3)
              case None => None
              case Some(e) => Some(Dates(s[p1..q1], s[p2..q2], s[p3..e]))
  }

  predicate DatesOk(d: Dates) {
    IsDate(d.date1) && IsDate(d.date2) && IsPtrAmount(d.amount)
  }

  /** What the date and amount pieces capture has their shapes. */
  lemma DatesAndAmountShape(s: string, i: nat)
    requires i <= |s| && DatesAndAmount(s, i).Some?
    ensures DatesOk(DatesAndAmount(s, i).value)
  {
    var p1 := Spaces1(s, i).value;
    var q1 := DateEnd(s, p1).value;
    var p2 := Spaces1(s, q1).value;
    var q2 := DateEnd(s, p2).value;
    var p3 := Spaces1(s, q2).value;
    DateEndShape(s, p1);
    DateEndShape(s, p2);
    AmountEndShape(s, p3);
  }

  datatype Tail = Tail(ticker: Option<string>, code: char, dates: Dates)

  /** Where the pieces of `\s*\(([A-Z]{1,5})\)\s*([PS])` stand when they
      match from `k`: the `(`, the `)` and the action code. */
  datatype TickerHead = TickerHead(open: nat, close: nat, code: nat)

  function TickerHeadAt(s: string, k: nat): (r: Option<TickerHead>)
    requires k <= |s|
    ensures r.Some? ==> k <= r.value.open < r.value.close < r.value.code < |s|
    ensures r.Some? ==> s[r.value.code] == 'P' || s[r.value.code] == 'S'
  {
    var a := SkipSpaces(s, k);
    if a < |s| && s[a] == '(' then
      var b := UpperRunEnd(s, a + 1);
      if 1 <= b - (a + 1) <= 5 && b < |s| && s[b] == ')' then
        var c := SkipSpaces(s, b + 1);
        if c < |s| && (s[c] == 'P' || s[c] == 'S') then
          Some(TickerHead(a, b, c))
        else None
      else None
    else None
  }

  lemma TickerHeadShape(s: string, k: nat)
    requires k <= |s| && TickerHeadAt(s, k).Some?
    ensures IsTickerSymbol(s[TickerHeadAt(s, k).value.open + 1..TickerHeadAt(s, k).value.close])
  {
    UpperRunSpan(s, SkipSpaces(s, k) + 1);
  }

  /** What a tail captures has the shapes its pieces match. */
  predicate TailOk(t: Tail) {
    (t.ticker.Some? ==> IsTickerSymbol(t.ticker.value)) && DatesOk(t.dates)
  }

  /** Pattern 1 after its asset: `\s*\(([A-Z]{1,5})\)\s*([PS])\s+date\s+date\s+amount`. */
  function TickerTail(s: string, k: nat): (r: Option<Tail>)
    requires k <= |s|
    ensures r.Some? ==> r.value.ticker.Some?
    ensures r.Some? ==> r.value.code == 'P' || r.value.code == 'S'
  {
    match TickerHeadAt(s, k)
    case None => None
    case Some(h) => TailWithDates(s, h, DatesAndAmount(s, h.code + 1))
  }

  /** The tail a matched ticker head and the dates after it give. */
  function TailWithDates(s: string, h: TickerHead, dates: Option<Dates>): (r: Option<Tail>)
    requires h.open < h.close < h.code < |s|
    ensures r.Some? <==> dates.Some?
    ensures r.Some? ==> r.value.ticker == Some(s[h.open + 1..h.close]) && r.value.code == s[h.code]
  {
    match dates
    case None => None
    case Some(d) => Some(Tail(Some(s[h.open + 1..h.close]), s[h.code], d))
  }

  /** `\s+\(partial\)` at `i`, when present: the position after it. */
  function SkipPartial(s: string, i: nat): (j: nat)
    requires i <= |s|
    ensures i <= j <= |s|
  {
    match Spaces1(s, i)
    case None => i
    case Some(p) => if p + 9 <= |s| && s[p..p + 9] == "(partial)" then p + 9 else i
  }

  /** Where `\s+([PS])` stands when it matches from `k`, and where the
      next piece starts: for pattern 2 past an optional `\s+\(partial\)`. A
      present marker is never skipped: without it the next piece would
      meet `(` where it needs a digit. */
  datatype CodeHead = CodeHead(code: nat, after: nat)

  function CodeHeadAt(s: string, k: nat, allowPartial: bool): (r: Option<CodeHead>)
    requires k <= |s|
    ensures r.Some? ==> k < r.value.code < r.value.after <= |s|
    ensures r.Some? ==> s[r.value.code] == 'P' || s[r.value.code] == 'S'
  {
    match Spaces1(s, k)
    case None => None
    case Some(c) =>
      if c < |s| && (s[c] == 'P' || s[c] == 'S') then
        Some(CodeHead(c, if allowPartial then SkipPartial(s, c + 1) else c + 1))
      else None
  }

  /** Patterns 2 and 3 after their asset: the code, the optional marker,
      then `\s+date\s+date\s+amount`. */
  function CodeTail(s: string, k: nat, allowPartial: bool): (r: Option<Tail>)
    requires k <= |s|
    ensures r.Some? ==> r.value.ticker.None?
    ensures r.Some? ==> r.value.code == 'P' || r.value.code == 'S'
  {
    match CodeHeadAt(s, k, allowPartial)
    case None => None
    case Some(h) =>
      match DatesAndAmount(s, h.after)
      case None => None
      case Some(d) => Some(Tail(None, s[h.code], d))
  }

  lemma TickerTailShape(s: string, k: nat)
    requires k <= |s| && TickerTail(s, k).Some?
    ensures TailOk(TickerTail(s, k).value)
  {
    var h := TickerHeadAt(s, k).value;
    TickerHeadShape(s, k);
    var d := DatesAndAmount(s, h.code + 1);
    assert TickerTail(s, k) == TailWithDates(s, h, d);
    DatesAndAmountShape(s, h.code + 1);
    assert TickerTail(s, k) == Some(Tail(Some(s[h.open + 1..h.close]), s[h.code], d.value));
  }

  lemma CodeTailShape(s: string, k: nat, allowPartial: bool)
    requires k <= |s| && CodeTail(s, k, allowPartial).Some?
    ensures TailOk(CodeTail(s, k, allowPartial).value)
  {
    DatesAndAmountShape(s, CodeHeadAt(s, k, allowPartial).value.after);
  }

  function Assemble(s: string, start: nat, k: nat, t: Tail): (c: Capture)
    requires start < k <= |s|
  {
    Capture(s[start..k], t.ticker, t.code, t.dates.date1, t.dates.date2, t.dates.amount)
  }

  /** Pattern 1's lazy `[A-Z].*?`: the asset is `s[start..k]` for the first
      `k` whose tail matches; `.` does not cross a newline. */
  function LazyTicker(s: string, start: nat, k: nat): (r: Option<Capture>)
    requires start < k <= |s| && IsUpper(s[start])
    requires '\n' !in s[start + 1..k]
    ensures r.Some? ==> WellFormed(r.value) && r.value.ticker.Some?
    ensures r.Some? ==> r.value.asset[0] == s[start] && '\n' !in r.value.asset[1..]
    decreases |s| - k
  {
    match TickerTail(s, k)
    case Some(t) => TickerTailShape(s, k); Some(Assemble(s, start, k, t))
    case None =>
      if k < |s| && s[k] != '\n' then
        assert s[start + 1..k + 1] == s[start + 1..k] + [s[k]];
        LazyTicker(s, start, k + 1)
      else None
  }

  function SearchTicker(s: string, p: nat): (r: Option<Capture>)
    requires p <= |s|
    ensures r.Some? ==> WellFormed(r.value) && r.value.ticker.Some?
    decreases |s| - p
  {
    if p == |s| then None
    else if IsUpper(s[p]) then
      match LazyTicker(s, p, p + 1)
      case Some(c) => Some(c)
      case None => SearchTicker(s, p + 1)
    else SearchTicker(s, p + 1)
  }

  /** Pattern 1 (`pdf_parser.py:154`, also the first shape of the line
      classifier): `Asset (TICKER) P|S date date amount` on one line. */
  function MatchTickerForm(line: string): (r: Option<Capture>)
    ensures r.Some? ==> WellFormed(r.value) && r.value.ticker.Some?
  {
    SearchTicker(line, 0)
  }

  /** The lazy `[A-Z][^P]*?` of patterns 2 and 3: no `P` after the first letter. */
  function LazyCode(s: string, start: nat, k: nat, allowPartial: bool): (r: Option<Capture>)
    requires start < k <= |s| && IsUpper(s[start])
    requires forall j :: start < j < k ==> s[j] != 'P'
    ensures r.Some? ==> WellFormed(r.value) && r.value.ticker.None?
    ensures r.Some? ==> r.value.asset[0] == s[start]
    ensures r.Some? ==> forall j :: 1 <= j < |r.value.asset| ==> r.value.asset[j] != 'P'
    decreases |s| - k
  {
    match CodeTail(s, k, allowPartial)
    case Some(t) => CodeTailShape(s, k, allowPartial); Some(Assemble(s, start, k, t))
    case None => if k < |s| && s[k] != 'P' then LazyCode(s, start, k + 1, allowPartial) else None
  }

  function SearchCode(s: string, p: nat, allowPartial: bool): (r: Option<Capture>)
    requires p <= |s|
    ensures r.Some? ==> WellFormed(r.value) && r.value.ticker.None?
    ensures r.Some? ==> forall j :: 1 <= j < |r.value.asset| ==> r.value.asset[j] != 'P'
    decreases |s| - p
  {
    if p == |s| then None
    else if OccursAt(s, "SP", p) then
      match Spaces1(s, p + 2)
      case Some(a) =>
        if a < |s| && IsUpper(s[a]) then
          match LazyCode(s, a, a + 1, allowPartial)
          case Some(c) => Some(c)
          case None => SearchCode(s, p + 1, allowPartial)
        else SearchCode(s, p + 1, allowPartial)
      case None => SearchCode(s, p + 1, allowPartial)
    else SearchCode(s, p + 1, allowPartial)
  }

  /** Pattern 2 (`pdf_parser.py:195`): `SP Asset P|S [(partial)] date date amount`,
      the ticker being expected on the next line. */
  function MatchPartialForm(line: string): (r: Option<Capture>)
    ensures r.Some? ==> WellFormed(r.value) && r.value.ticker.None?
    ensures r.Some? ==> forall j :: 1 <= j < |r.value.asset| ==> r.value.asset[j] != 'P'
  {
    SearchCode(line, 0, true)
  }

  /** Pattern 3 (`pdf_parser.py:242`): `SP Asset P|S date date amount`, no ticker. */
  function MatchPlainForm(line: string): (r: Option<Capture>)
    ensures r.Some? ==> WellFormed(r.value) && r.value.ticker.None?
    ensures r.Some? ==> forall j :: 1 <= j < |r.value.asset| ==> r.value.asset[j] != 'P'
  {
    SearchCode(line, 0, false)
  }

  // ---------------------------------------------------------------------
  // Next-line searches
  // ---------------------------------------------------------------------

  /** `\$[\d,]` starts at `q`. */
  predicate DollarAt(s: string, q: nat)
    requires q + 1 < |s|
  {
    s[q] == '$' && IsDigitOrComma(s[q + 1])
  }

  /** The dollar token `t` is read at `q`: it stands there whole, and no
      digit or comma follows it (`[\d,]+` is greedy). */
  predicate DollarTokenAt(s: string, q: nat, t: string) {
    IsDollarToken(t) && OccursAt(s, t, q) && (q + |t| == |s| || !IsDigitOrComma(s[q + |t|]))
  }

  /** `re.search(r'(\$[\d,]+)', s)`: the leftmost dollar token, taken whole. */
  function FirstDollar(s: string): (r: Option<string>)
    ensures r.Some? ==> IsDollarToken(r.value) && Contains(s, r.value)
    ensures r.Some? ==> exists q :: (0 <= q < |s| - 1 && DollarTokenAt(s, q, r.value)
      && forall q' :: 0 <= q' < q ==> !DollarAt(s, q'))
    ensures r.None? <==> forall q :: 0 <= q < |s| - 1 ==> !DollarAt(s, q)
  {
    DollarFrom(s, 0)
  }

  function DollarFrom(s: string, p: nat): (r: Option<string>)
    requires p <= |s|
    ensures r.Some? ==> IsDollarToken(r.value) && Contains(s, r.value)
    ensures r.Some? ==> exists q :: (p <= q < |s| - 1 && DollarTokenAt(s, q, r.value)
      && forall q' :: p <= q' < q ==> !DollarAt(s, q'))
    ensures r.Some? ==> exists q :: p <= q < |s| - 1 && DollarAt(s, q)
    ensures r.None? ==> forall q :: p <= q < |s| - 1 ==> !DollarAt(s, q)
    decreases |s| - p
  {
    if p + 1 < |s| && DollarAt(s, p) then
      var t := s[p..NumberRunEnd(s, p + 1)];
      NumberRunSpan(s, p + 1);
      assert OccursAt(s, t, p);
      assert DollarTokenAt(s, p, t);
      Some(t)
    else if p < |s| then DollarFrom(s, p + 1)
    else None
  }

  datatype TickerHit = TickerHit(start: nat, symbol: string)

  /** `re.search(r'\(([A-Z]{1,5})\)', s)`: the first parenthesised ticker
      and where its `(` stands. */
  function FirstTicker(s: string): (r: Option<TickerHit>)
    ensures r.Some? ==> r.value.start < |s| && TickerAt(s, r.value.start)
    ensures r.Some? ==> IsTickerSymbol(r.value.symbol)
    ensures r.Some? ==> OccursAt(s, "(" + r.value.symbol + ")", r.value.start)
    ensures r.Some? ==> forall q :: 0 <= q < r.value.start ==> !TickerAt(s, q)
    ensures r.None? ==> forall q :: 0 <= q < |s| ==> !TickerAt(s, q)
  {
    TickerFrom(s, 0)
  }

  function TickerFrom(s: string, p: nat): (r: Option<TickerHit>)
    requires p <= |s|
    ensures r.Some? ==> p <= r.value.start < |s| && TickerAt(s, r.value.start)
    ensures r.Some? ==> IsTickerSymbol(r.value.symbol)
    ensures r.Some? ==> OccursAt(s, "(" + r.value.symbol + ")", r.value.start)
    ensures r.Some? ==> forall q :: p <= q < r.value.start ==> !TickerAt(s, q)
    ensures r.None? ==> forall q :: p <= q < |s| ==> !TickerAt(s, q)
    decreases |s| - p
  {
    if p < |s| && TickerAt(s, p) then
      var b := UpperRunEnd(s, p + 1);
      UpperRunSpan(s, p + 1);
      assert s[p..b + 1] == "(" + s[p + 1..b] + ")";
      Some(TickerHit(p, s[p + 1..b]))
    else if p < |s| then TickerFrom(s, p + 1)
    else None
  }

  /** `\(([A-Z]{1,5})\)` matches at `p`. */
  predicate TickerAt(s: string, p: nat)
    requires p < |s|
  {
    var b := UpperRunEnd(s, p + 1);
    s[p] == '(' && 1 <= b - (p + 1) <= 5 && b < |s| && s[b] == ')'
  }

  // ---------------------------------------------------------------------
  // Heuristic-path searches
  // ---------------------------------------------------------------------

  /** `\b` just before position `p` that starts a word. */
  predicate BoundaryBefore(s: string, p: nat)
    requires p <= |s|
  {
    p == 0 || !IsWordChar(s[p - 1])
  }

  /** `\b` just after position `e - 1` that ends a word. */
  predicate BoundaryAfter(s: string, e: nat)
    requires e <= |s|
  {
    e == |s| || !IsWordChar(s[e])
  }

  /** `\b(\d{1,2}/\d{1,2}/\d{4})\b` matches at `p`. The date piece has one
      way to match at a position, so there is nothing to backtrack into. */
  predicate DateMatchAt(s: string, p: nat)
    requires p <= |s|
  {
    p < |s| && BoundaryBefore(s, p) && DateEnd(s, p).Some? && BoundaryAfter(s, DateEnd(s, p).value)
  }

  /** `re.search(r'\b(\d{1,2}/\d{1,2}/\d{4})\b', s)`: the leftmost
      whole-word date. */
  function FirstDate(s: string): (r: Option<string>)
    ensures r.Some? ==> IsDate(r.value)
    ensures r.Some? ==> exists p :: (0 <= p < |s| && DateMatchAt(s, p) && OccursAt(s, r.value, p)
      && DateEnd(s, p) == Some(p + |r.value|)
      && forall q :: 0 <= q < p ==> !DateMatchAt(s, q))
    ensures r.None? <==> forall p :: 0 <= p < |s| ==> !DateMatchAt(s, p)
  {
    match DateIndexFrom(s, 0)
    case Some(p) =>
      var d := s[p..DateEnd(s, p).value];
      DateEndShape(s, p);
      assert OccursAt(s, d, p);
      Some(d)
    case None => None
  }

  /** The first `q >= p` where a whole-word date starts. */
  function DateIndexFrom(s: string, p: nat): (r: Option<nat>)
    requires p <= |s|
    ensures r.Some? ==> p <= r.value < |s| && DateMatchAt(s, r.value)
    ensures r.Some? ==> forall q :: p <= q < r.value ==> !DateMatchAt(s, q)
    ensures r.None? ==> forall q :: p <= q < |s| ==> !DateMatchAt(s, q)
    decreases |s| - p
  {
    if DateMatchAt(s, p) then Some(p)
    else if p < |s| then DateIndexFrom(s, p + 1)
    else None
  }

  /** The end of `(?:\s+[A-Z]{2,})*\b` after a run of capitals ending at
      `e`: the regex engine first takes every further capital word it can,
      and gives the last one back when it is glued to a lower-case letter,
      digit or underscore. */
  function PhraseEnd(s: string, e: nat): (r: Option<nat>)
    requires 0 < e <= |s|
    ensures r.Some? ==> e <= r.value <= |s| && BoundaryAfter(s, r.value)
    ensures r.Some? && r.value > e ==> IsUpper(s[r.value - 1])
    ensures r.Some? ==> forall k :: e <= k < r.value ==> IsUpper(s[k]) || IsSpace(s[k])
    decreases |s| - e
  {
    var f := SkipSpaces(s, e);
    var g := if f < |s| then UpperRunEnd(s, f) else f;
    SkipSpacesSpan(s, e);
    UpperRunSpan(s, f);
    if e < f && g - f >= 2 then
      match PhraseEnd(s, g)
      case Some(x) => Some(x)
      case None => if BoundaryAfter(s, e) then Some(e) else None
    else if BoundaryAfter(s, e) then Some(e)
    else None
  }

  /** `s[p..x]` is capital words of two letters or more separated by
      whitespace: it starts and ends with a capital, holds only capitals and
      whitespace, and no capital stands alone inside the span. */
  predicate PhraseSpan(s: string, p: nat, x: nat)
    requires p <= x <= |s|
  {
    && p + 2 <= x && IsUpper(s[p]) && IsUpper(s[x - 1])
    && (forall k :: p <= k < x ==> IsUpper(s[k]) || IsSpace(s[k]))
    && (forall k :: p <= k < x ==> !Isolated(s, p, x, k))
  }

  /** `s[k]` is a capital with no capital next to it inside `s[p..x]`. */
  predicate Isolated(s: string, p: nat, x: nat, k: nat)
    requires p <= k < x <= |s|
  {
    IsUpper(s[k]) && (k + 1 == x || !IsUpper(s[k + 1])) && (k == p || !IsUpper(s[k - 1]))
  }

  /** `\b([A-Z]{2,}(?:\s+[A-Z]{2,})*)\b` can match `s[p..x]`. */
  predicate PhraseMatch(s: string, p: nat, x: nat)
    requires p <= x <= |s|
  {
    BoundaryBefore(s, p) && PhraseSpan(s, p, x) && BoundaryAfter(s, x)
  }

  /** No phrase match starts at `q`. */
  predicate NoPhraseAt(s: string, q: nat)
    requires q <= |s|
  {
    forall x :: q <= x <= |s| ==> !PhraseMatch(s, q, x)
  }

  /** A phrase of capital words on its own. */
  predicate IsCapitalPhrase(t: string) {
    PhraseSpan(t, 0, |t|)
  }

  /** `re.search(r'\b([A-Z]{2,}(?:\s+[A-Z]{2,})*)\b', s)`: the phrase of
      capital words that starts leftmost, taken as far as it can go. */
  function FirstCapitalPhrase(s: string): (r: Option<string>)
    ensures r.Some? ==> IsCapitalPhrase(r.value) && Contains(s, r.value)
    ensures r.Some? ==> exists p, e :: (0 <= p < e <= |s| && PhraseMatch(s, p, e) && r.value == s[p..e]
      && (forall q :: 0 <= q < p ==> NoPhraseAt(s, q))
      && (forall x :: p <= x <= |s| && PhraseMatch(s, p, x) ==> x <= e))
    ensures r.None? <==> forall q :: 0 <= q <= |s| ==> NoPhraseAt(s, q)
  {
    match PhraseFrom(s, 0)
    case Some(sp) =>
      var t := s[sp.start..sp.end];
      PhraseSpanSlice(s, sp.start, sp.end);
      assert OccursAt(s, t, sp.start);
      assert !NoPhraseAt(s, sp.start);
      Some(t)
    case None => None
  }

  datatype Span = Span(start: nat, end: nat)

  /** The leftmost start at or after `p` where the phrase pattern matches,
      with the end the regex engine settles on there. */
  function PhraseFrom(s: string, p: nat): (r: Option<Span>)
    requires p <= |s|
    ensures r.Some? ==> p <= r.value.start < r.value.end <= |s|
    ensures r.Some? ==> PhraseMatch(s, r.value.start, r.value.end)
    ensures r.Some? ==> forall q :: p <= q < r.value.start ==> NoPhraseAt(s, q)
    ensures r.Some? ==> forall x :: r.value.start <= x <= |s| && PhraseMatch(s, r.value.start, x) ==> x <= r.value.end
    ensures r.None? ==> forall q :: p <= q <= |s| ==> NoPhraseAt(s, q)
    decreases |s| - p
  {
    if p == |s| then None
    else
      match PhraseAt(s, p)
      case Some(e) => Some(Span(p, e))
      case None => PhraseFrom(s, p + 1)
  }

  /** The end of the phrase the regex engine takes when it starts at `q`:
      the first word is a whole run of capitals, and `PhraseEnd` extends it
      as far as a word boundary allows. */
  function PhraseAt(s: string, q: nat): (r: Option<nat>)
    requires q < |s|
    ensures r.Some? ==> q < r.value <= |s| && PhraseMatch(s, q, r.value)
    ensures r.Some? ==> forall x :: q <= x <= |s| && PhraseMatch(s, q, x) ==> x <= r.value
    ensures r.None? ==> NoPhraseAt(s, q)
  {
    var e := UpperRunEnd(s, q);
    UpperRunSpan(s, q);
    if BoundaryBefore(s, q) && e - q >= 2 then
      assert PhraseSpan(s, q, e);
      PhraseEndMaximal(s, q, e);
      forall x | q <= x <= |s| && PhraseMatch(s, q, x)
        ensures e <= x
      {
      }
      PhraseEnd(s, e)
    else
      forall x | q <= x <= |s| && PhraseSpan(s, q, x)
        ensures BoundaryBefore(s, q) ==> false
      {
        assert !Isolated(s, q, x, q);
        assert IsUpper(s[q]) && IsUpper(s[q + 1]);
        assert e > q + 1;
      }
      None
  }

  /** `PhraseEnd` from the end `e` of the phrase begun at `p` gives a phrase
      end, and no later end that the pattern allows lies beyond it. */
  lemma PhraseEndMaximal(s: string, p: nat, e: nat)
    requires p + 2 <= e <= |s| && PhraseSpan(s, p, e)
    requires e == |s| || !IsUpper(s[e])
    ensures PhraseEnd(s, e).Some? ==> PhraseSpan(s, p, PhraseEnd(s, e).value)
    ensures forall x :: e <= x <= |s| && PhraseSpan(s, p, x) && BoundaryAfter(s, x) ==>
      PhraseEnd(s, e).Some? && x <= PhraseEnd(s, e).value
  {
    PhraseEndValid(s, p, e);
    forall x | e <= x <= |s| && PhraseSpan(s, p, x) && BoundaryAfter(s, x)
      ensures PhraseEnd(s, e).Some? && x <= PhraseEnd(s, e).value
    {
      PhraseEndReaches(s, p, e, x);
    }
  }

  /** What `PhraseEnd` returns still spans capital words. */
  lemma {:induction false} PhraseEndValid(s: string, p: nat, e: nat)
    requires p + 2 <= e <= |s| && PhraseSpan(s, p, e)
    requires e == |s| || !IsUpper(s[e])
    ensures PhraseEnd(s, e).Some? ==> PhraseSpan(s, p, PhraseEnd(s, e).value)
    decreases |s| - e
  {
    var f := SkipSpaces(s, e);
    var g := if f < |s| then UpperRunEnd(s, f) else f;
    if e < f && g - f >= 2 {
      SkipSpacesSpan(s, e);
      UpperRunSpan(s, f);
      NextWordExtends(s, p, e, f, g);
      PhraseEndValid(s, p, g);
    }
  }

  /** An end `x` the pattern allows is reached: `PhraseEnd` goes at least
      that far. */
  lemma {:induction false} PhraseEndReaches(s: string, p: nat, e: nat, x: nat)
    requires p + 2 <= e <= x <= |s| && PhraseSpan(s, p, e)
    requires e == |s| || !IsUpper(s[e])
    requires PhraseSpan(s, p, x) && BoundaryAfter(s, x)
    ensures PhraseEnd(s, e).Some? && x <= PhraseEnd(s, e).value
    decreases |s| - e
  {
    var f := SkipSpaces(s, e);
    var g := if f < |s| then UpperRunEnd(s, f) else f;
    if x > e {
      NextWordWithin(s, p, e, x);
      UpperRunSpan(s, f);
      assert g >= f + 2;
      assert g <= x;
      SkipSpacesSpan(s, e);
      NextWordExtends(s, p, e, f, g);
      PhraseEndReaches(s, p, g, x);
      PhraseEndStep(s, e, f, g);
    }
  }

  /** When a further word follows and the phrase extends from its end, that
      is where the phrase ends. */
  lemma PhraseEndStep(s: string, e: nat, f: nat, g: nat)
    requires 0 < e < f <= g - 2 && g <= |s|
    requires f == SkipSpaces(s, e) && f < |s| && g == UpperRunEnd(s, f)
    requires PhraseEnd(s, g).Some?
    ensures PhraseEnd(s, e) == PhraseEnd(s, g)
  {
  }

  /** Inside a longer phrase, the characters after the run ending at `e`
      are whitespace and then a capital with a capital after it. */
  lemma NextWordWithin(s: string, p: nat, e: nat, x: nat)
    requires p + 2 <= e < x <= |s| && PhraseSpan(s, p, x)
    requires !IsUpper(s[e])
    ensures SkipSpaces(s, e) < x - 1
    ensures IsUpper(s[SkipSpaces(s, e)]) && IsUpper(s[SkipSpaces(s, e) + 1])
    ensures e < SkipSpaces(s, e)
  {
    var f := SkipSpaces(s, e);
    SkipSpacesSpan(s, e);
    assert IsSpace(s[e]);
    assert f < x;
    assert IsUpper(s[f]);
    assert !IsUpper(s[f - 1]) by {
      assert IsSpace(s[f - 1]);
    }
    assert !Isolated(s, p, x, f);
    assert f + 1 < x && IsUpper(s[f + 1]);
  }

  /** A further word of two capitals or more, after whitespace, extends a phrase. */
  lemma NextWordExtends(s: string, p: nat, e: nat, f: nat, g: nat)
    requires p + 2 <= e < f <= g - 2 && g <= |s| && PhraseSpan(s, p, e)
    requires forall k :: e <= k < f ==> IsSpace(s[k])
    requires forall k :: f <= k < g ==> IsUpper(s[k])
    requires g == |s| || !IsUpper(s[g])
    ensures PhraseSpan(s, p, g)
  {
    forall k | p <= k < g && IsUpper(s[k])
      ensures !Isolated(s, p, g, k)
    {
      if k < e {
        assert !Isolated(s, p, e, k);
        assert (k + 1 < e && IsUpper(s[k + 1])) || (p < k && IsUpper(s[k - 1]));
      } else if k < f {
        assert false;
      } else if k + 1 < g {
        assert IsUpper(s[k + 1]);
      } else {
        assert f <= k - 1 && IsUpper(s[k - 1]);
      }
    }
  }

  /** A phrase span read on its own is a capital phrase. */
  lemma PhraseSpanSlice(s: string, p: nat, x: nat)
    requires p <= x <= |s| && PhraseSpan(s, p, x)
    ensures IsCapitalPhrase(s[p..x])
  {
    var t := s[p..x];
    assert forall k :: 0 <= k < |t| ==> t[k] == s[p + k];
    forall k | 0 <= k < |t|
      ensures !Isolated(t, 0, |t|, k)
    {
      var j := p + k;
      assert !Isolated(s, p, x, j);
      assert t[k] == s[j];
      if j + 1 < x && IsUpper(s[j + 1]) {
        assert t[k + 1] == s[j + 1];
      } else {
        assert t[k - 1] == s[j - 1];
      }
    }
    assert forall k :: 0 <= k < |t| ==> IsUpper(t[k]) || IsSpace(t[k]);
    assert IsUpper(t[0]) && IsUpper(t[|t| - 1]);
  }
}

/** Laws of the structural patterns: each shape, rendered from its groups,
    is matched back to exactly those groups; and facts about what the groups
    can hold that the parser's later checks depend on. */
module PatternLaws {
  import opened Wrappers
  import opened Text
  import opened Patterns

  // ---------------------------------------------------------------------
  // Exact positions of the greedy runs
  // ---------------------------------------------------------------------

  lemma {:induction false} SkipSpacesExact(s: string, i: nat, j: nat)
    requires i <= j <= |s|
    requires forall k :: i <= k < j ==> IsSpace(s[k])
    requires j < |s| ==> !IsSpace(s[j])
    ensures SkipSpaces(s, i) == j
    decreases j - i
  {
    if i < j {
      SkipSpacesExact(s, i + 1, j);
    }
  }

  lemma {:induction false} UpperRunEndExact(s: string, i: nat, j: nat)
    requires i <= j <= |s|
    requires forall k :: i <= k < j ==> IsUpper(s[k])
    requires j < |s| ==> !IsUpper(s[j])
    ensures UpperRunEnd(s, i) == j
    decreases j - i
  {
    if i < j {
      UpperRunEndExact(s, i + 1, j);
    }
  }

  lemma {:induction false} NumberRunEndExact(s: string, i: nat, j: nat)
    requires i <= j <= |s|
    requires forall k :: i <= k < j ==> IsDigitOrComma(s[k])
    requires j < |s| ==> !IsDigitOrComma(s[j])
    ensures NumberRunEnd(s, i) == j
    decreases j - i
  {
    if i < j {
      NumberRunEndExact(s, i + 1, j);
    }
  }

  /** An amount as a PTR line prints it: a dollar token, optionally followed
      by `-` or ` -` when the range continues on the next line. */
  predicate CanonicalAmount(a: string) {
    || IsDollarToken(a)
    || (|a| >= 3 && a[|a| - 1] == '-' && IsDollarToken(a[..|a| - 1]))
    || (|a| >= 4 && a[|a| - 2..] == " -" && IsDollarToken(a[..|a| - 2]))
  }

  lemma AmountAtEnd(s: string, p: nat)
    requires p <= |s| && CanonicalAmount(s[p..])
    ensures AmountEnd(s, p) == Some(|s|)
  {
    var a := s[p..];
    var n := if IsDollarToken(a) then |a| else if a[|a| - 1] == '-' && IsDollarToken(a[..|a| - 1]) then |a| - 1 else |a| - 2;
    assert IsDollarToken(a[..n]);
    forall k | p + 1 <= k < p + n
      ensures IsDigitOrComma(s[k])
    {
      assert s[k] == a[..n][k - p];
    }
    NumberRunEndExact(s, p + 1, p + n);
    if n == |a| - 2 {
      assert s[p + n] == ' ' && s[p + n + 1] == '-';
      SkipSpacesExact(s, p + n, p + n + 1);
    }
  }

  lemma DateAt(s: string, p: nat, d: string)
    requires OccursAt(s, d, p) && IsDate(d)
    ensures DateEnd(s, p) == Some(p + |d|)
  {
    DateEndLocal(s, p, d);
  }

  lemma DateStartsWithDigit(d: string)
    requires IsDate(d)
    ensures |d| > 0 && IsDigit(d[0])
  {
  }

  /** Splits a known suffix of `s` into its two parts. */
  lemma SuffixStep(s: string, i: nat, x: string, y: string)
    requires i <= |s| && s[i..] == x + y
    ensures i + |x| <= |s|
    ensures s[i..i + |x|] == x && OccursAt(s, x, i)
    ensures s[i + |x|..] == y
  {
    assert s[i..][..|x|] == x;
    assert s[i..][|x|..] == y;
  }

  /** What follows the action code on a PTR line: the two dates and the
      amount, one space before each. */
  function DatesText(d1: string, d2: string, amt: string): string {
    " " + (d1 + (" " + (d2 + (" " + amt))))
  }

  /** `\s+date\s+date\s+amount` recovers the three groups when each sits
      at a known position, with a single space before each. */
  lemma DatesAndAmountPlaced(s: string, i: nat, p1: nat, q1: nat, p2: nat, q2: nat, p3: nat,
                              d1: string, d2: string, amt: string)
    requires p1 == i + 1 && q1 == p1 + |d1| && p2 == q1 + 1 && q2 == p2 + |d2| && p3 == q2 + 1
    requires p3 <= |s| && s[i] == ' ' && OccursAt(s, d1, p1) && IsDate(d1)
    requires s[q1] == ' ' && OccursAt(s, d2, p2) && IsDate(d2)
    requires s[q2] == ' ' && s[p3..] == amt && CanonicalAmount(amt)
    ensures DatesAndAmount(s, i) == Some(Dates(d1, d2, amt))
  {
    SpaceThenDate(s, i, p1, q1, d1);
    SpaceThenDate(s, q1, p2, q2, d2);
    SpaceThenAmount(s, q2, p3);
    assert s[p1..q1] == d1 && s[p2..q2] == d2 && s[p3..|s|] == amt;
    DatesAndAmountUnfold(s, i, p1, q1, p2, q2, p3, |s|);
  }

  /** A single space, then a date: `p` and `q` are where the date starts
      and ends. */
  lemma SpaceThenDate(s: string, i: nat, p: nat, q: nat, d: string)
    requires p == i + 1 && q == p + |d|
    requires i < |s| && s[i] == ' ' && OccursAt(s, d, p) && IsDate(d)
    ensures Spaces1(s, i) == Some(p) && DateEnd(s, p) == Some(q)
  {
    DateStartsWithDigit(d);
    assert s[p] == d[0];
    SkipSpacesExact(s, p, p);
    DateAt(s, p, d);
  }

  lemma SpaceThenAmount(s: string, i: nat, p: nat)
    requires p == i + 1
    requires i < |s| && s[i] == ' ' && CanonicalAmount(s[p..])
    ensures Spaces1(s, i) == Some(p) && AmountEnd(s, p) == Some(|s|)
  {
    assert s[p] == s[p..][0];
    SkipSpacesExact(s, p, p);
    AmountAtEnd(s, p);
  }

  lemma DatesAndAmountUnfold(s: string, i: nat, p1: nat, q1: nat, p2: nat, q2: nat, p3: nat, e: nat)
    requires i <= |s|
    requires Spaces1(s, i) == Some(p1) && DateEnd(s, p1) == Some(q1)
    requires Spaces1(s, q1) == Some(p2) && DateEnd(s, p2) == Some(q2)
    requires Spaces1(s, q2) == Some(p3) && AmountEnd(s, p3) == Some(e)
    ensures p1 <= q1 <= p2 <= q2 <= p3 <= e <= |s|
    ensures DatesAndAmount(s, i) == Some(Dates(s[p1..q1], s[p2..q2], s[p3..e]))
  {
  }

  /** A single space at `i`, then `y`. */
  lemma SpaceStep(s: string, i: nat, p: nat, y: string)
    requires p == i + 1 && i <= |s| && s[i..] == " " + y
    ensures p <= |s| && s[i] == ' ' && s[p..] == y
  {
    assert s[i] == s[i..][0];
    assert s[p..] == s[i..][1..];
  }

  /** `x` at `p`, then `y`. */
  lemma WordStep(s: string, p: nat, q: nat, x: string, y: string)
    requires q == p + |x| && p <= |s| && s[p..] == x + y
    ensures q <= |s| && OccursAt(s, x, p) && s[q..] == y
  {
    SuffixStep(s, p, x, y);
  }

  /** The same, for a line whose suffix from `i` is the rendered text. */
  lemma DatesAndAmountAt(s: string, i: nat, d1: string, d2: string, amt: string)
    requires i <= |s| && s[i..] == DatesText(d1, d2, amt)
    requires IsDate(d1) && IsDate(d2) && CanonicalAmount(amt)
    ensures DatesAndAmount(s, i) == Some(Dates(d1, d2, amt))
  {
    DatesAndAmountChain(s, i, i + 1, i + 1 + |d1|, i + 2 + |d1|, i + 2 + |d1| + |d2|, i + 3 + |d1| + |d2|, d1, d2, amt);
  }

  lemma DatesAndAmountChain(s: string, i: nat, p1: nat, q1: nat, p2: nat, q2: nat, p3: nat,
                            d1: string, d2: string, amt: string)
    requires p1 == i + 1 && q1 == p1 + |d1| && p2 == q1 + 1 && q2 == p2 + |d2| && p3 == q2 + 1
    requires i <= |s| && s[i..] == DatesText(d1, d2, amt)
    requires IsDate(d1) && IsDate(d2) && CanonicalAmount(amt)
    ensures DatesAndAmount(s, i) == Some(Dates(d1, d2, amt))
  {
    SpaceStep(s, i, p1, d1 + (" " + (d2 + (" " + amt))));
    WordStep(s, p1, q1, d1, " " + (d2 + (" " + amt)));
    SpaceStep(s, q1, p2, d2 + (" " + amt));
    WordStep(s, p2, q2, d2, " " + amt);
    SpaceStep(s, q2, p3, amt);
    DatesAndAmountPlaced(s, i, p1, q1, p2, q2, p3, d1, d2, amt);
  }

  lemma DateStartsNoDigitFail(s: string, p: nat)
    requires p < |s| && !IsDigit(s[p])
    ensures DateEnd(s, p).None?
  {
  }

  // ---------------------------------------------------------------------
  // Pattern 1 round trip
  // ---------------------------------------------------------------------

  /** The text after the asset in pattern 1's layout. */
  function TickerText(t: string, code: char, dates: string): string {
    " (" + (t + (") " + ([code] + dates)))
  }

  /** A pattern-1 line printed from its groups. */
  function RenderTickerForm(c: Capture): string
    requires c.ticker.Some?
  {
    c.asset + TickerText(c.ticker.value, c.code, DatesText(c.date1, c.date2, c.amount))
  }

  /** Groups a pattern-1 line can be printed from and read back: the asset
      starts with a capital, does not end in whitespace and holds no `(`
      or line break. */
  predicate TickerRenderable(c: Capture) {
    && |c.asset| > 0 && IsUpper(c.asset[0]) && !IsSpace(c.asset[|c.asset| - 1])
    && (forall j :: 0 <= j < |c.asset| ==> c.asset[j] != '(' && c.asset[j] != '\n')
    && c.ticker.Some? && IsTickerSymbol(c.ticker.value)
    && (c.code == 'P' || c.code == 'S')
    && IsDate(c.date1) && IsDate(c.date2) && CanonicalAmount(c.amount)
  }

  lemma TickerTextPieces(s: string, a: nat, t: string, code: char, dates: string)
    requires a <= |s| && s[a..] == TickerText(t, code, dates)
    ensures a + 5 + |t| + |dates| == |s|
    ensures s[a] == ' ' && s[a + 1] == '(' && OccursAt(s, t, a + 2)
    ensures s[a + 2 + |t|] == ')' && s[a + 3 + |t|] == ' ' && s[a + 4 + |t|] == code
    ensures s[a + 5 + |t|..] == dates
  {
    SuffixStep(s, a, " (", t + (") " + ([code] + dates)));
    SuffixStep(s, a + 2, t, ") " + ([code] + dates));
    SuffixStep(s, a + 2 + |t|, ") ", [code] + dates);
    SuffixStep(s, a + 4 + |t|, [code], dates);
    assert s[a..a + 2] == " (";
    assert s[a + 2 + |t|..a + 4 + |t|] == ") ";
    assert s[a + 4 + |t|..a + 5 + |t|] == [code];
  }

  lemma TickerHeadExact(s: string, a: nat, b: nat)
    requires a + 2 < b && b + 2 < |s| && b - (a + 2) <= 5
    requires s[a] == ' ' && s[a + 1] == '('
    requires forall k :: a + 2 <= k < b ==> IsUpper(s[k])
    requires s[b] == ')' && s[b + 1] == ' ' && (s[b + 2] == 'P' || s[b + 2] == 'S')
    ensures TickerHeadAt(s, a) == Some(TickerHead(a + 1, b, b + 2))
  {
    SkipSpacesExact(s, a, a + 1);
    UpperRunEndExact(s, a + 2, b);
    SkipSpacesExact(s, b + 1, b + 2);
  }

  lemma TickerTailStep(s: string, a: nat, h: TickerHead)
    requires a <= |s| && TickerHeadAt(s, a) == Some(h)
    ensures TickerTail(s, a) == TailWithDates(s, h, DatesAndAmount(s, h.code + 1))
  {
    var d := DatesAndAmount(s, h.code + 1);
    assert TickerTail(s, a) == TailWithDates(s, h, d);
  }

  lemma TailWithDatesOf(s: string, h: TickerHead, d: Dates)
    requires h.open < h.close < h.code < |s|
    ensures TailWithDates(s, h, Some(d)) == Some(Tail(Some(s[h.open + 1..h.close]), s[h.code], d))
  {
  }

  lemma TickerTailUnfold(s: string, a: nat, t: string, code: char, d1: string, d2: string, amt: string)
    requires a <= |s| && TickerHeadAt(s, a) == Some(TickerHead(a + 1, a + 2 + |t|, a + 4 + |t|))
    requires s[a + 2..a + 2 + |t|] == t && s[a + 4 + |t|] == code
    requires a + 5 + |t| <= |s| && s[a + 5 + |t|..] == DatesText(d1, d2, amt)
    requires IsDate(d1) && IsDate(d2) && CanonicalAmount(amt)
    ensures TickerTail(s, a) == Some(Tail(Some(t), code, Dates(d1, d2, amt)))
  {
    var h := TickerHead(a + 1, a + 2 + |t|, a + 4 + |t|);
    assert h.open + 1 == a + 2 && h.close == a + 2 + |t| && h.code + 1 == a + 5 + |t|;
    assert h.open < h.close < h.code < |s|;
    assert s[h.open + 1..h.close] == t && s[h.code] == code;
    DatesAndAmountAt(s, h.code + 1, d1, d2, amt);
    TickerTailStep(s, a, h);
    TailCombine(s, a, h, Dates(d1, d2, amt), t, code);
  }

  lemma TailCombine(s: string, a: nat, h: TickerHead, d: Dates, t: string, code: char)
    requires a <= |s| && h.open < h.close < h.code < |s|
    requires TickerTail(s, a) == TailWithDates(s, h, DatesAndAmount(s, h.code + 1))
    requires DatesAndAmount(s, h.code + 1) == Some(d)
    requires s[h.open + 1..h.close] == t && s[h.code] == code
    ensures TickerTail(s, a) == Some(Tail(Some(t), code, d))
  {
    TailWithDatesOf(s, h, d);
  }

  lemma TickerTailAt(s: string, a: nat, t: string, code: char, d1: string, d2: string, amt: string)
    requires a <= |s| && s[a..] == TickerText(t, code, DatesText(d1, d2, amt))
    requires IsTickerSymbol(t) && (code == 'P' || code == 'S')
    requires IsDate(d1) && IsDate(d2) && CanonicalAmount(amt)
    ensures TickerTail(s, a) == Some(Tail(Some(t), code, Dates(d1, d2, amt)))
  {
    TickerHeadPlaced(s, a, t, code, DatesText(d1, d2, amt));
    TickerTailUnfold(s, a, t, code, d1, d2, amt);
  }

  /** The upper-case run of a placed ticker. */
  lemma PlacedTickerUpper(s: string, a: nat, t: string)
    requires OccursAt(s, t, a) && IsTickerSymbol(t)
    ensures forall k :: a <= k < a + |t| ==> IsUpper(s[k])
  {
    forall k | a <= k < a + |t|
      ensures IsUpper(s[k])
    {
      assert s[k] == s[a..a + |t|][k - a];
    }
  }

  lemma TickerHeadPlaced(s: string, a: nat, t: string, code: char, dates: string)
    requires a <= |s| && s[a..] == TickerText(t, code, dates)
    requires IsTickerSymbol(t) && (code == 'P' || code == 'S')
    ensures TickerHeadAt(s, a) == Some(TickerHead(a + 1, a + 2 + |t|, a + 4 + |t|))
    ensures s[a + 2..a + 2 + |t|] == t && s[a + 4 + |t|] == code
    ensures s[a + 5 + |t|..] == dates
  {
    TickerTextPieces(s, a, t, code, dates);
    PlacedTickerUpper(s, a + 2, t);
    TickerHeadExact(s, a, a + 2 + |t|);
  }

  /** Inside an asset without `(` that ends in a non-space, the ticker
      tail cannot start. */
  lemma TickerTailInside(s: string, k: nat, e: nat)
    requires k < e <= |s|
    requires forall j :: k <= j < e ==> s[j] != '('
    requires !IsSpace(s[e - 1])
    ensures TickerTail(s, k).None?
  {
    SkipSpacesSpan(s, k);
    assert SkipSpaces(s, k) < e;
  }

  lemma {:induction false} LazyTickerWalk(s: string, k: nat, e: nat, tail: Tail)
    requires 0 < k <= e <= |s| && IsUpper(s[0])
    requires forall j :: 0 <= j < e ==> s[j] != '(' && s[j] != '\n'
    requires !IsSpace(s[e - 1])
    requires TickerTail(s, e) == Some(tail)
    ensures '\n' !in s[1..k]
    ensures LazyTicker(s, 0, k) == Some(Assemble(s, 0, e, tail))
    decreases e - k
  {
    assert '\n' !in s[1..k] by {
      forall j | 0 <= j < |s[1..k]| ensures s[1..k][j] != '\n' {
        assert s[1..k][j] == s[j + 1];
      }
    }
    if k < e {
      TickerTailInside(s, k, e);
      LazyTickerWalk(s, k + 1, e, tail);
    }
  }

  /** Pattern 1 reads a line printed from its groups back as exactly those
      groups. */
  lemma TickerFormRoundTrip(c: Capture)
    requires TickerRenderable(c)
    ensures MatchTickerForm(RenderTickerForm(c)) == Some(c)
  {
    var s := RenderTickerForm(c);
    var e := |c.asset|;
    var rest := TickerText(c.ticker.value, c.code, DatesText(c.date1, c.date2, c.amount));
    assert s == c.asset + rest;
    SuffixStep(s, 0, c.asset, rest);
    TickerTailAt(s, e, c.ticker.value, c.code, c.date1, c.date2, c.amount);
    forall j | 0 <= j < e
      ensures s[j] != '(' && s[j] != '\n'
    {
      assert s[j] == c.asset[j];
    }
    assert s[e - 1] == c.asset[e - 1];
    assert s[0] == c.asset[0];
    var tail := Tail(c.ticker, c.code, Dates(c.date1, c.date2, c.amount));
    LazyTickerWalk(s, 1, e, tail);
    assert s[0..e] == c.asset;
  }

  // ---------------------------------------------------------------------
  // Patterns 2 and 3 round trip
  // ---------------------------------------------------------------------

  function PartialText(partial: bool): string {
    if partial then " (partial)" else ""
  }

  /** The text after the asset in the layout of patterns 2 and 3. */
  function CodeText(code: char, partial: bool, dates: string): string {
    " " + ([code] + (PartialText(partial) + dates))
  }

  /** A pattern-2 or pattern-3 line printed from its groups, with the
      `(partial)` marker when `partial` holds. */
  function RenderCodeForm(c: Capture, partial: bool): string {
    "SP " + (c.asset + CodeText(c.code, partial, DatesText(c.date1, c.date2, c.amount)))
  }

  /** Groups a pattern-2/3 line can be printed from and read back: the
      asset starts with a capital, does not end in whitespace, and holds no
      digit, no `(` and no `P` after its first letter. */
  predicate CodeRenderable(c: Capture) {
    && |c.asset| > 0 && IsUpper(c.asset[0]) && !IsSpace(c.asset[|c.asset| - 1])
    && (forall j :: 0 <= j < |c.asset| ==> c.asset[j] != '(' && !IsDigit(c.asset[j]))
    && (forall j :: 1 <= j < |c.asset| ==> c.asset[j] != 'P')
    && c.ticker.None?
    && (c.code == 'P' || c.code == 'S')
    && IsDate(c.date1) && IsDate(c.date2) && CanonicalAmount(c.amount)
  }

  lemma CodeTextPieces(s: string, k: nat, code: char, partial: bool, dates: string)
    requires k <= |s| && s[k..] == CodeText(code, partial, dates)
    ensures k + 2 + |PartialText(partial)| + |dates| == |s|
    ensures s[k] == ' ' && s[k + 1] == code
    ensures s[k + 2..] == PartialText(partial) + dates
  {
    SuffixStep(s, k, " ", [code] + (PartialText(partial) + dates));
    SuffixStep(s, k + 1, [code], PartialText(partial) + dates);
    assert s[k..k + 1] == " ";
    assert s[k + 1..k + 2] == [code];
  }

  lemma CodeTailUnfold(s: string, k: nat, c: nat, allow: bool, after: nat, d: Dates)
    requires k <= |s| && c < |s|
    requires CodeHeadAt(s, k, allow) == Some(CodeHead(c, after))
    requires DatesAndAmount(s, after) == Some(d)
    ensures CodeTail(s, k, allow) == Some(Tail(None, s[c], d))
  {
  }

  /** A marker right after the code is skipped. */
  lemma PartialPresent(s: string, i: nat, e: nat)
    requires e == i + 10 && e <= |s| && s[i..e] == " (partial)"
    ensures SkipPartial(s, i) == e
  {
    assert s[i] == ' ' && s[i + 1] == '(';
    SkipSpacesExact(s, i + 1, i + 1);
    assert s[i + 1..i + 10] == s[i..e][1..];
  }

  /** No marker: the position stays put. */
  lemma PartialAbsent(s: string, i: nat, j: nat)
    requires j == i + 1 && j < |s| && s[i] == ' ' && IsDigit(s[j])
    ensures SkipPartial(s, i) == i
  {
    SkipSpacesExact(s, j, j);
    if j + 9 <= |s| {
      assert s[j..j + 9][0] == s[j];
    }
  }

  lemma CodeTailAt(s: string, k: nat, code: char, partial: bool, allow: bool, d1: string, d2: string, amt: string)
    requires k <= |s| && s[k..] == CodeText(code, partial, DatesText(d1, d2, amt))
    requires partial ==> allow
    requires code == 'P' || code == 'S'
    requires IsDate(d1) && IsDate(d2) && CanonicalAmount(amt)
    ensures CodeTail(s, k, allow) == Some(Tail(None, code, Dates(d1, d2, amt)))
  {
    CodeTextPieces(s, k, code, partial, DatesText(d1, d2, amt));
    if partial {
      CodeHeadMarked(s, k, d1, d2, amt);
      CodeTailUnfold(s, k, k + 1, allow, k + 12, Dates(d1, d2, amt));
    } else {
      CodeHeadUnmarked(s, k, allow, d1, d2, amt);
      assert s[k + 2..] == DatesText(d1, d2, amt);
      DatesAndAmountAt(s, k + 2, d1, d2, amt);
      CodeTailUnfold(s, k, k + 1, allow, k + 2, Dates(d1, d2, amt));
    }
  }

  lemma CodeHeadExact(s: string, k: nat, c: nat, next: nat, after: nat, allow: bool)
    requires k <= |s| && c < |s| && next == c + 1
    requires Spaces1(s, k) == Some(c) && (s[c] == 'P' || s[c] == 'S')
    requires allow ==> SkipPartial(s, next) == after
    requires !allow ==> after == next
    ensures CodeHeadAt(s, k, allow) == Some(CodeHead(c, after))
  {
  }

  lemma CodeHeadMarked(s: string, k: nat, d1: string, d2: string, amt: string)
    requires k + 2 <= |s| && s[k] == ' ' && (s[k + 1] == 'P' || s[k + 1] == 'S')
    requires s[k + 2..] == PartialText(true) + DatesText(d1, d2, amt)
    requires IsDate(d1) && IsDate(d2) && CanonicalAmount(amt)
    ensures k + 12 <= |s|
    ensures CodeHeadAt(s, k, true) == Some(CodeHead(k + 1, k + 12))
    ensures DatesAndAmount(s, k + 12) == Some(Dates(d1, d2, amt))
  {
    SuffixStep(s, k + 2, " (partial)", DatesText(d1, d2, amt));
    assert CodeHeadAt(s, k, true) == Some(CodeHead(k + 1, k + 12)) by {
      SkipSpacesExact(s, k + 1, k + 1);
      PartialPresent(s, k + 2, k + 12);
      CodeHeadExact(s, k, k + 1, k + 2, k + 12, true);
    }
    DatesAndAmountAt(s, k + 12, d1, d2, amt);
  }

  lemma CodeHeadUnmarked(s: string, k: nat, allow: bool, d1: string, d2: string, amt: string)
    requires k + 2 <= |s| && s[k] == ' ' && (s[k + 1] == 'P' || s[k + 1] == 'S')
    requires s[k + 2..] == PartialText(false) + DatesText(d1, d2, amt)
    requires IsDate(d1)
    ensures CodeHeadAt(s, k, allow) == Some(CodeHead(k + 1, k + 2))
  {
    SkipSpacesExact(s, k + 1, k + 1);
    if allow {
      NoMarkerBeforeDate(s, k + 2, d1, d2, amt);
    }
    CodeHeadExact(s, k, k + 1, k + 2, k + 2, allow);
  }

  lemma NoMarkerBeforeDate(s: string, i: nat, d1: string, d2: string, amt: string)
    requires i <= |s| && s[i..] == PartialText(false) + DatesText(d1, d2, amt)
    requires IsDate(d1)
    ensures SkipPartial(s, i) == i
  {
    DateStartsWithDigit(d1);
    assert s[i..] == " " + (d1 + (" " + (d2 + (" " + amt))));
    SuffixStep(s, i, " ", d1 + (" " + (d2 + (" " + amt))));
    SuffixStep(s, i + 1, d1, " " + (d2 + (" " + amt)));
    assert s[i + 1] == d1[0];
    PartialAbsent(s, i, i + 1);
  }

  /** Where every character up to `hi` is neither a digit nor `(` and
      `s[hi]` is not whitespace, no `(partial)` marker and no date can
      start. */
  lemma NoDatesBefore(s: string, i: nat, hi: nat)
    requires i <= hi < |s| && !IsSpace(s[hi])
    requires forall j :: i <= j <= hi ==> !IsDigit(s[j]) && s[j] != '('
    ensures SkipPartial(s, i) == i
    ensures DatesAndAmount(s, i).None?
  {
    if i < |s| && IsSpace(s[i]) {
      SkipSpacesSpan(s, i);
      var p := SkipSpaces(s, i);
      assert p <= hi;
      if p + 9 <= |s| {
        assert s[p..p + 9][0] == s[p];
      }
    }
  }

  /** Inside such an asset the code tail cannot start. */
  lemma CodeTailInside(s: string, k: nat, e: nat, allow: bool)
    requires 0 < k < e && e + 1 < |s| && !IsSpace(s[e - 1]) && !IsSpace(s[e + 1])
    requires forall j :: k <= j <= e + 1 ==> !IsDigit(s[j]) && s[j] != '('
    ensures CodeTail(s, k, allow).None?
  {
    if IsSpace(s[k]) {
      var c := SkipSpaces(s, k);
      assert c < e by {
        SkipSpacesSpan(s, k);
      }
      assert Spaces1(s, k) == Some(c);
      NoDatesBefore(s, c + 1, e + 1);
    }
  }

  lemma {:induction false} LazyCodeWalk(s: string, k: nat, e: nat, allow: bool, tail: Tail)
    requires 3 < k <= e && e + 1 < |s| && IsUpper(s[3])
    requires forall j :: 3 < j < e ==> s[j] != 'P'
    requires forall j :: 3 <= j <= e + 1 ==> !IsDigit(s[j]) && s[j] != '('
    requires !IsSpace(s[e - 1]) && !IsSpace(s[e + 1])
    requires CodeTail(s, e, allow) == Some(tail)
    ensures LazyCode(s, 3, k, allow) == Some(Assemble(s, 3, e, tail))
    decreases e - k
  {
    if k < e {
      CodeTailInside(s, k, e, allow);
      LazyCodeWalk(s, k + 1, e, allow, tail);
    }
  }

  lemma SearchCodeFirst(s: string, allow: bool, c: Capture)
    requires 3 < |s| && OccursAt(s, "SP", 0) && Spaces1(s, 2) == Some(3) && IsUpper(s[3])
    requires LazyCode(s, 3, 4, allow) == Some(c)
    ensures SearchCode(s, 0, allow) == Some(c)
  {
  }

  /** Patterns 2 and 3 read a line printed from their groups back as exactly
      those groups; pattern 3 (no `allow`) only when the marker is absent. */
  lemma CodeRenderPieces(c: Capture, partial: bool)
    requires |c.asset| > 0
    ensures var s := RenderCodeForm(c, partial);
      && 3 + |c.asset| + 2 <= |s| && OccursAt(s, "SP", 0) && s[2] == ' '
      && (forall j :: 3 <= j < 3 + |c.asset| ==> s[j] == c.asset[j - 3])
      && s[3..3 + |c.asset|] == c.asset
      && s[3 + |c.asset|..] == CodeText(c.code, partial, DatesText(c.date1, c.date2, c.amount))
  {
    var s := RenderCodeForm(c, partial);
    var rest := CodeText(c.code, partial, DatesText(c.date1, c.date2, c.amount));
    SuffixStep(s, 0, "SP ", c.asset + rest);
    SuffixStep(s, 3, c.asset, rest);
    assert s[0..2] == "SP";
    assert s[0..3][2] == s[2];
    forall j | 3 <= j < 3 + |c.asset|
      ensures s[j] == c.asset[j - 3]
    {
      assert s[3..3 + |c.asset|][j - 3] == s[j];
    }
  }

  /** Patterns 2 and 3 read a line printed from their groups back as exactly
      those groups; pattern 3 (no `allow`) only when the marker is absent. */
  lemma CodeFormRoundTrip(c: Capture, partial: bool, allow: bool)
    requires CodeRenderable(c) && (partial ==> allow)
    ensures SearchCode(RenderCodeForm(c, partial), 0, allow) == Some(c)
  {
    CodeLineStart(c, partial);
    CodeLazyAt(c, partial, allow);
    CodeFormFinish(RenderCodeForm(c, partial), c, allow);
  }

  lemma CodeLineStart(c: Capture, partial: bool)
    requires CodeRenderable(c)
    ensures var s := RenderCodeForm(c, partial);
      && 5 < |s| && OccursAt(s, "SP", 0) && s[2] == ' ' && IsUpper(s[3]) && !IsSpace(s[3])
  {
    CodeRenderPieces(c, partial);
  }

  lemma CodeLazyAt(c: Capture, partial: bool, allow: bool)
    requires CodeRenderable(c) && (partial ==> allow)
    ensures LazyCode(RenderCodeForm(c, partial), 3, 4, allow) == Some(c)
  {
    CodeRenderPieces(c, partial);
    CodeLazyOn(RenderCodeForm(c, partial), c, partial, allow);
  }

  /** The walk over a line known only through its pieces. */
  lemma CodeLazyOn(s: string, c: Capture, partial: bool, allow: bool)
    requires CodeRenderable(c) && (partial ==> allow)
    requires 3 + |c.asset| + 2 <= |s|
    requires forall j :: 3 <= j < 3 + |c.asset| ==> s[j] == c.asset[j - 3]
    requires s[3..3 + |c.asset|] == c.asset
    requires s[3 + |c.asset|..] == CodeText(c.code, partial, DatesText(c.date1, c.date2, c.amount))
    ensures LazyCode(s, 3, 4, allow) == Some(c)
  {
    var tail := Tail(None, c.code, Dates(c.date1, c.date2, c.amount));
    CodeTextPieces(s, 3 + |c.asset|, c.code, partial, DatesText(c.date1, c.date2, c.amount));
    assert s[3 + |c.asset|] == ' ' && s[3 + |c.asset| + 1] == c.code;
    assert Assemble(s, 3, 3 + |c.asset|, tail) == c;
    // Once the tail's match is known, only literal steps remain.
    assert CodeTail(s, 3 + |c.asset|, allow) == Some(tail) by {
      CodeTailAt(s, 3 + |c.asset|, c.code, partial, allow, c.date1, c.date2, c.amount);
    }
    LazyCodeFromPieces(s, c.asset, c.code, allow, tail);
  }

  lemma LazyCodeFromPieces(s: string, a: string, code: char, allow: bool, tail: Tail)
    requires |a| > 0 && 3 + |a| + 2 <= |s|
    requires forall j :: 3 <= j < 3 + |a| ==> s[j] == a[j - 3]
    requires s[3 + |a|] == ' ' && s[3 + |a| + 1] == code && (code == 'P' || code == 'S')
    requires forall j :: 0 <= j < |a| ==> a[j] != '(' && !IsDigit(a[j])
    requires forall j :: 1 <= j < |a| ==> a[j] != 'P'
    requires !IsSpace(a[|a| - 1]) && IsUpper(a[0])
    requires CodeTail(s, 3 + |a|, allow) == Some(tail)
    ensures LazyCode(s, 3, 4, allow) == Some(Assemble(s, 3, 3 + |a|, tail))
  {
    CodeWalkFacts(s, a, code);
    LazyCodeWalk(s, 4, 3 + |a|, allow, tail);
  }

  lemma CodeFormFinish(s: string, c: Capture, allow: bool)
    requires 5 < |s| && OccursAt(s, "SP", 0) && s[2] == ' ' && IsUpper(s[3]) && !IsSpace(s[3])
    requires LazyCode(s, 3, 4, allow) == Some(c)
    ensures SearchCode(s, 0, allow) == Some(c)
  {
    assert IsSpace(s[2]);
    SkipSpacesExact(s, 3, 3);
    assert Spaces1(s, 2) == Some(3);
    SearchCodeFirst(s, allow, c);
  }

  lemma CodeWalkFacts(s: string, a: string, code: char)
    requires |a| > 0 && 3 + |a| + 2 <= |s|
    requires forall j :: 3 <= j < 3 + |a| ==> s[j] == a[j - 3]
    requires s[3 + |a|] == ' ' && s[3 + |a| + 1] == code && (code == 'P' || code == 'S')
    requires forall j :: 0 <= j < |a| ==> a[j] != '(' && !IsDigit(a[j])
    requires forall j :: 1 <= j < |a| ==> a[j] != 'P'
    requires !IsSpace(a[|a| - 1]) && IsUpper(a[0])
    ensures forall j :: 3 < j < 3 + |a| ==> s[j] != 'P'
    ensures forall j :: 3 <= j <= 3 + |a| + 1 ==> !IsDigit(s[j]) && s[j] != '('
    ensures !IsSpace(s[3 + |a| - 1]) && !IsSpace(s[3 + |a| + 1]) && IsUpper(s[3])
  {
  }

  /** Pattern 2 on a line with the marker, pattern 3 on one without. */
  lemma PartialFormRoundTrip(c: Capture, partial: bool)
    requires CodeRenderable(c)
    ensures MatchPartialForm(RenderCodeForm(c, partial)) == Some(c)
  {
    CodeFormRoundTrip(c, partial, true);
  }

  lemma PlainFormRoundTrip(c: Capture)
    requires CodeRenderable(c)
    ensures MatchPlainForm(RenderCodeForm(c, false)) == Some(c)
  {
    CodeFormRoundTrip(c, false, false);
  }
}

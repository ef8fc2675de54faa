/** Python string primitives used throughout the tracker, on `string`
    (`seq<char>`): substring tests, prefix/suffix tests, `strip()`,
    `replace(p, "")`, `split(sep)`, `' '.join`, `upper()`/`lower()`/`title()`,
    `str(int)` and `int(str)`. Character classes follow Python where that is
    finite (whitespace); letters and digits are the ASCII ones. */
module Text {
  import opened Wrappers

  // ---------------------------------------------------------------------
  // Character classes
  // ---------------------------------------------------------------------

  /** Python's `str.isspace()` set, which is also what `\s` and `strip()` use. */
  predicate IsSpace(c: char) {
    || c == ' ' || c == '\t' || c == '\n' || c == '\r'
    || c == '\U{B}' || c == '\U{C}'
    || ('\U{1C}' <= c <= '\U{1F}')
    || c == '\U{85}' || c == '\U{A0}' || c == '\U{1680}'
    || ('\U{2000}' <= c <= '\U{200A}')
    || c == '\U{2028}' || c == '\U{2029}' || c == '\U{202F}'
    || c == '\U{205F}' || c == '\U{3000}'
  }

  predicate IsDigit(c: char) { '0' <= c <= '9' }

  predicate IsUpper(c: char) { 'A' <= c <= 'Z' }

  predicate IsLower(c: char) { 'a' <= c <= 'z' }

  predicate IsAlpha(c: char) { IsUpper(c) || IsLower(c) }

  /** The `\w` class: letters, digits and underscore. */
  predicate IsWordChar(c: char) { IsAlpha(c) || IsDigit(c) || c == '_' }

  function ToUpperChar(c: char): (r: char)
    ensures IsLower(c) ==> IsUpper(r)
    ensures !IsLower(c) ==> r == c
  {
    if IsLower(c) then (c as int - 32) as char else c
  }

  function ToLowerChar(c: char): (r: char)
    ensures IsUpper(c) ==> IsLower(r)
    ensures !IsUpper(c) ==> r == c
  {
    if IsUpper(c) then (c as int + 32) as char else c
  }

  /** `s.upper()`: same length, no lower-case letter left, everything else kept. */
  function Upper(s: string): (r: string)
    ensures |r| == |s|
    ensures forall i :: 0 <= i < |s| ==> r[i] == ToUpperChar(s[i])
  {
    seq(|s|, i requires 0 <= i < |s| => ToUpperChar(s[i]))
  }

  /** `s.lower()`. */
  function Lower(s: string): (r: string)
    ensures |r| == |s|
    ensures forall i :: 0 <= i < |s| ==> r[i] == ToLowerChar(s[i])
  {
    seq(|s|, i requires 0 <= i < |s| => ToLowerChar(s[i]))
  }

  /** `s.title()`: a letter is upper-cased when the character before it is
      not a letter, lower-cased otherwise. */
  function Title(s: string): (r: string)
    ensures |r| == |s|
  {
    TitleAfter(s, false)
  }

  function TitleAfter(s: string, previousCased: bool): (r: string)
    ensures |r| == |s|
    ensures |s| > 0 && !previousCased ==> r[0] == ToUpperChar(s[0])
    ensures forall i :: 0 < i < |s| ==>
      r[i] == (if IsAlpha(s[i - 1]) then ToLowerChar(s[i]) else ToUpperChar(s[i]))
    decreases |s|
  {
    if |s| == 0 then ""
    else
      var c := if previousCased then ToLowerChar(s[0]) else ToUpperChar(s[0]);
      [c] + TitleAfter(s[1..], IsAlpha(s[0]))
  }

  // ---------------------------------------------------------------------
  // Substrings
  // ---------------------------------------------------------------------

  predicate OccursAt(s: string, pat: string, i: int) {
    0 <= i && i + |pat| <= |s| && s[i..i + |pat|] == pat
  }

  /** Python's `pat in s`. */
  predicate Contains(s: string, pat: string) {
    exists i | 0 <= i <= |s| - |pat| :: OccursAt(s, pat, i)
  }

  predicate StartsWith(s: string, prefix: string) {
    |prefix| <= |s| && s[..|prefix|] == prefix
  }

  predicate EndsWith(s: string, suffix: string) {
    |suffix| <= |s| && s[|s| - |suffix|..] == suffix
  }

  /** Python's `s.find(pat)` searched from `from` on, as an option. */
  function IndexFrom(s: string, pat: string, from: nat): (r: Option<nat>)
    ensures r.Some? ==> from <= r.value && OccursAt(s, pat, r.value)
    ensures r.Some? ==> forall j :: from <= j < r.value ==> !OccursAt(s, pat, j)
    ensures r.None? ==> forall j :: from <= j ==> !OccursAt(s, pat, j)
    decreases |s| - from
  {
    if from + |pat| > |s| then None
    else if s[from..from + |pat|] == pat then Some(from)
    else IndexFrom(s, pat, from + 1)
  }

  function IndexOf(s: string, pat: string): (r: Option<nat>)
    ensures r.Some? ==> OccursAt(s, pat, r.value)
    ensures r.Some? ==> forall j :: 0 <= j < r.value ==> !OccursAt(s, pat, j)
    ensures r.None? <==> !Contains(s, pat)
  {
    IndexFrom(s, pat, 0)
  }

  lemma OccursInLarger(s: string, pat: string, sub: string, i: int, j: int)
    requires OccursAt(s, sub, i)
    requires OccursAt(sub, pat, j)
    ensures OccursAt(s, pat, i + j)
  {
    forall k | 0 <= k < |pat|
      ensures s[i + j + k] == pat[k]
    {
      assert pat[k] == sub[j + k] == s[i..i + |sub|][j + k];
    }
  }

  /** A pattern holding a character the string lacks does not occur in it. */
  lemma MissingLetter(s: string, pat: string, j: nat)
    requires j < |pat| && forall i :: 0 <= i < |s| ==> s[i] != pat[j]
    ensures !Contains(s, pat)
  {
    forall i | 0 <= i <= |s| - |pat|
      ensures !OccursAt(s, pat, i)
    {
      assert i + j < |s| && s[i + j] != pat[j];
    }
  }

  /** Substring containment is transitive: a string holding `sub` holds every
      substring of `sub`. */
  lemma ContainsTransitive(s: string, sub: string, pat: string)
    requires Contains(s, sub)
    requires Contains(sub, pat)
    ensures Contains(s, pat)
  {
    var i :| 0 <= i <= |s| - |sub| && OccursAt(s, sub, i);
    var j :| 0 <= j <= |sub| - |pat| && OccursAt(sub, pat, j);
    OccursInLarger(s, pat, sub, i, j);
  }

  lemma OccursAtContains(s: string, pat: string, i: int)
    requires OccursAt(s, pat, i)
    ensures Contains(s, pat)
  {
  }

  /** True when some pattern of the list occurs in `s` (Python's
      `any(p in s for p in pats)`). */
  predicate ContainsAny(s: string, pats: seq<string>) {
    exists k | 0 <= k < |pats| :: Contains(s, pats[k])
  }

  /** `any(p in s for p in pats)` evaluated left to right, as the source
      does; it agrees with the quantified `ContainsAny`. */
  function AnyIn(s: string, pats: seq<string>): (r: bool)
    ensures r <==> ContainsAny(s, pats)
    decreases |pats|
  {
    if |pats| == 0 then false
    else if Contains(s, pats[0]) then true
    else
      var rest := AnyIn(s, pats[1..]);
      assert ContainsAny(s, pats[1..]) ==> ContainsAny(s, pats) by {
        if ContainsAny(s, pats[1..]) {
          var k :| 0 <= k < |pats[1..]| && Contains(s, pats[1..][k]);
          assert Contains(s, pats[k + 1]);
        }
      }
      assert ContainsAny(s, pats) ==> ContainsAny(s, pats[1..]) by {
        if ContainsAny(s, pats) {
          var k :| 0 <= k < |pats| && Contains(s, pats[k]);
          assert k > 0 && pats[1..][k - 1] == pats[k];
        }
      }
      rest
  }

  /** Upper-casing twice is upper-casing once. */
  lemma UpperIdempotent(s: string)
    ensures Upper(Upper(s)) == Upper(s)
  {
    forall i | 0 <= i < |s|
      ensures Upper(Upper(s))[i] == Upper(s)[i]
    {
      var c := s[i];
      assert IsLower(c) ==> !IsLower(ToUpperChar(c));
    }
  }

  // ---------------------------------------------------------------------
  // strip()
  // ---------------------------------------------------------------------

  function TrimStart(s: string): (r: string)
    ensures |r| <= |s| && r == s[|s| - |r|..]
    ensures forall i :: 0 <= i < |s| - |r| ==> IsSpace(s[i])
    ensures |r| > 0 ==> !IsSpace(r[0])
    decreases |s|
  {
    if |s| > 0 && IsSpace(s[0]) then TrimStart(s[1..]) else s
  }

  function TrimEnd(s: string): (r: string)
    ensures |r| <= |s| && r == s[..|r|]
    ensures forall i :: |r| <= i < |s| ==> IsSpace(s[i])
    ensures |r| > 0 ==> !IsSpace(r[|r| - 1])
    decreases |s|
  {
    if |s| > 0 && IsSpace(s[|s| - 1]) then TrimEnd(s[..|s| - 1]) else s
  }

  /** `s.strip()`: the longest infix with no surrounding whitespace. */
  function Strip(s: string): (r: string)
    ensures |r| <= |s|
    ensures |r| > 0 ==> !IsSpace(r[0]) && !IsSpace(r[|r| - 1])
    ensures Contains(s, r)
  {
    var t := TrimStart(s);
    var r := TrimEnd(t);
    assert OccursAt(s, r, |s| - |t|);
    r
  }

  /** A string with no whitespace at either end is its own `strip()`. */
  lemma StripIdentity(s: string)
    requires |s| > 0 ==> !IsSpace(s[0]) && !IsSpace(s[|s| - 1])
    ensures Strip(s) == s
  {
  }

  // ---------------------------------------------------------------------
  // replace(pat, "") / split / join
  // ---------------------------------------------------------------------

  /** `s.replace(pat, "")`: drops the non-overlapping occurrences of `pat`,
      found left to right. */
  function RemoveAll(s: string, pat: string): (r: string)
    requires |pat| > 0
    ensures |r| <= |s|
    ensures !Contains(s, pat) ==> r == s
    decreases |s|
  {
    if |s| == 0 then ""
    else if StartsWith(s, pat) then
      assert OccursAt(s, pat, 0);
      RemoveAll(s[|pat|..], pat)
    else
      var rest := RemoveAll(s[1..], pat);
      assert !Contains(s, pat) ==> !Contains(s[1..], pat) by {
        if Contains(s[1..], pat) {
          var i :| 0 <= i <= |s[1..]| - |pat| && OccursAt(s[1..], pat, i);
          assert OccursAt(s, pat, i + 1);
        }
      }
      [s[0]] + rest
  }

  /** Removing a single character distributes over concatenation. */
  lemma {:induction false} RemoveCharConcat(x: string, y: string, c: char)
    ensures RemoveAll(x + y, [c]) == RemoveAll(x, [c]) + RemoveAll(y, [c])
    decreases |x|
  {
    if |x| > 0 {
      RemoveCharConcat(x[1..], y, c);
      var xy := x + y;
      assert xy[1..] == x[1..] + y;
      assert xy[0] == x[0];
      if x[0] == c {
        assert StartsWith(xy, [c]) && StartsWith(x, [c]);
        assert RemoveAll(xy, [c]) == RemoveAll(xy[1..], [c]);
        assert RemoveAll(x, [c]) == RemoveAll(x[1..], [c]);
      } else {
        assert !StartsWith(xy, [c]) && !StartsWith(x, [c]);
        assert RemoveAll(xy, [c]) == [x[0]] + RemoveAll(xy[1..], [c]);
        assert RemoveAll(x, [c]) == [x[0]] + RemoveAll(x[1..], [c]);
      }
    } else {
      assert x + y == y;
    }
  }

  /** Removing a character leaves none of it behind. */
  lemma {:induction false} RemoveCharGone(s: string, c: char)
    ensures forall k :: 0 <= k < |RemoveAll(s, [c])| ==> RemoveAll(s, [c])[k] != c
    decreases |s|
  {
    if |s| > 0 {
      RemoveCharGone(s[1..], c);
      if !StartsWith(s, [c]) {
        assert s[..1] == [s[0]];
      }
    }
  }

  /** An infix of a string avoiding a character avoids it too. */
  lemma InfixAvoids(s: string, r: string, c: char)
    requires Contains(s, r)
    requires forall k :: 0 <= k < |s| ==> s[k] != c
    ensures forall k :: 0 <= k < |r| ==> r[k] != c
  {
    var i :| 0 <= i <= |s| - |r| && OccursAt(s, r, i);
    forall k | 0 <= k < |r|
      ensures r[k] != c
    {
      assert r[k] == s[i..i + |r|][k] == s[i + k];
    }
  }

  /** A string without the character is left as it is. */
  lemma RemoveAbsentChar(s: string, c: char)
    requires forall i :: 0 <= i < |s| ==> s[i] != c
    ensures RemoveAll(s, [c]) == s
  {
    MissingLetter(s, [c], 0);
  }

  /** `s.split(sep)` for a non-empty separator: the pieces between the
      non-overlapping occurrences of `sep`, left to right. */
  function Split(s: string, sep: string): (parts: seq<string>)
    requires |sep| > 0
    ensures |parts| > 0
    decreases |s|
  {
    match IndexOf(s, sep)
    case None => [s]
    case Some(i) => [s[..i]] + Split(s[i + |sep|..], sep)
  }

  /** A string with one occurrence of `sep` splits into the parts before
      and after it. */
  lemma SplitOnce(s: string, sep: string, i: nat)
    requires |sep| > 0 && OccursAt(s, sep, i)
    requires forall j :: 0 <= j < i ==> !OccursAt(s, sep, j)
    requires !Contains(s[i + |sep|..], sep)
    ensures Split(s, sep) == [s[..i], s[i + |sep|..]]
  {
    var rest := s[i + |sep|..];
    assert Split(rest, sep) == [rest] by {
      assert IndexOf(rest, sep).None?;
    }
    assert IndexOf(s, sep) == Some(i) by {
      assert Contains(s, sep);
    }
  }

  /** `sep.join(parts)`. */
  function Join(parts: seq<string>, sep: string): string
    decreases |parts|
  {
    if |parts| == 0 then ""
    else if |parts| == 1 then parts[0]
    else parts[0] + sep + Join(parts[1..], sep)
  }

  /** Splitting and joining with the same separator gives back the string. */
  lemma {:induction false} JoinSplit(s: string, sep: string)
    requires |sep| > 0
    ensures Join(Split(s, sep), sep) == s
    decreases |s|
  {
    match IndexOf(s, sep)
    case None =>
    case Some(i) =>
      var rest := s[i + |sep|..];
      JoinSplit(rest, sep);
      var tail := Split(rest, sep);
      assert Split(s, sep) == [s[..i]] + tail;
      assert ([s[..i]] + tail)[1..] == tail;
      assert s == s[..i] + sep + rest;
  }

  /** No piece of a split holds the separator. */
  lemma {:induction false} SplitPiecesFree(s: string, sep: string)
    requires |sep| > 0
    ensures forall k :: 0 <= k < |Split(s, sep)| ==> !Contains(Split(s, sep)[k], sep)
    decreases |s|
  {
    match IndexOf(s, sep)
    case None =>
    case Some(i) =>
      var rest := s[i + |sep|..];
      SplitPiecesFree(rest, sep);
      var head := s[..i];
      if Contains(head, sep) {
        var j :| 0 <= j <= |head| - |sep| && OccursAt(head, sep, j);
        assert OccursAt(s, sep, j);
        assert false;
      }
  }

  function Last<T>(xs: seq<T>): T
    requires |xs| > 0
  {
    xs[|xs| - 1]
  }

  /** `s.split(sep)[-1]` holds no separator. */
  lemma LastOfSplitFree(s: string, sep: string)
    requires |sep| > 0
    ensures !Contains(Last(Split(s, sep)), sep)
  {
    SplitPiecesFree(s, sep);
  }

  /** `s.split(sep)[0]`: the text before the first separator. */
  function FirstPiece(s: string, sep: string): (r: string)
    requires |sep| > 0
    ensures StartsWith(s, r)
    ensures !Contains(r, sep)
    ensures r == Split(s, sep)[0]
  {
    match IndexOf(s, sep)
    case None => s
    case Some(i) =>
      var r := s[..i];
      assert !Contains(r, sep) by {
        if Contains(r, sep) {
          var j :| 0 <= j <= |r| - |sep| && OccursAt(r, sep, j);
          assert OccursAt(s, sep, j);
        }
      }
      r
  }

  /** The first piece ends where the first separator starts. */
  lemma FirstPieceAt(s: string, sep: string, i: nat)
    requires |sep| > 0 && OccursAt(s, sep, i)
    requires forall j :: 0 <= j < i ==> !OccursAt(s, sep, j)
    ensures FirstPiece(s, sep) == s[..i]
  {
    assert IndexOf(s, sep) == Some(i) by {
      assert Contains(s, sep);
    }
  }

  // ---------------------------------------------------------------------
  // Decimal numbers: str(int) and int(str)
  // ---------------------------------------------------------------------

  predicate AllDigits(s: string) {
    forall i :: 0 <= i < |s| ==> IsDigit(s[i])
  }

  function DigitChar(d: nat): (c: char)
    requires d < 10
    ensures IsDigit(c)
  {
    ('0' as int + d) as char
  }

  function DigitValue(c: char): (d: nat)
    requires IsDigit(c)
    ensures d < 10
  {
    c as int - '0' as int
  }

  /** `str(n)` for a natural number. */
  function ShowNat(n: nat): (r: string)
    ensures |r| > 0 && AllDigits(r)
    decreases n
  {
    if n < 10 then [DigitChar(n)] else ShowNat(n / 10) + [DigitChar(n % 10)]
  }

  /** `str(i)`: a minus sign before negative numbers. */
  function ShowInt(i: int): (r: string)
    ensures |r| > 0
    ensures i >= 0 ==> r == ShowNat(i)
    ensures i < 0 ==> r == "-" + ShowNat(-i)
  {
    if i < 0 then "-" + ShowNat(-i) else ShowNat(i)
  }

  /** The value of a run of decimal digits, most significant first. */
  function DigitsValue(s: string): nat
    requires AllDigits(s)
    decreases |s|
  {
    if |s| == 0 then 0 else DigitsValue(s[..|s| - 1]) * 10 + DigitValue(s[|s| - 1])
  }

  lemma {:induction false} DigitsValueShowNat(n: nat)
    ensures DigitsValue(ShowNat(n)) == n
    decreases n
  {
    if n >= 10 {
      DigitsValueShowNat(n / 10);
      var s := ShowNat(n);
      assert s[..|s| - 1] == ShowNat(n / 10);
    }
  }

  /** Digits in groups separated by single underscores, as Python's `int()`
      accepts them: `1_000` but not `_1`, `1_` or `1__0`. */
  predicate DigitGroups(s: string) {
    && |s| > 0
    && IsDigit(s[0])
    && IsDigit(s[|s| - 1])
    && forall i :: 0 <= i < |s| ==> GroupChar(s, i)
  }

  /** Position `i` holds a digit, or an underscore followed by a digit. */
  predicate GroupChar(s: string, i: int)
    requires 0 <= i < |s|
  {
    IsDigit(s[i]) || (s[i] == '_' && i + 1 < |s| && IsDigit(s[i + 1]))
  }

  lemma DigitGroupsChars(s: string)
    requires DigitGroups(s)
    ensures forall i :: 0 <= i < |s| ==> IsDigit(s[i]) || s[i] == '_'
  {
    forall i | 0 <= i < |s|
      ensures IsDigit(s[i]) || s[i] == '_'
    {
      assert GroupChar(s, i);
    }
  }

  function DropUnderscores(s: string): (r: string)
    requires forall i :: 0 <= i < |s| ==> IsDigit(s[i]) || s[i] == '_'
    ensures AllDigits(r)
    ensures AllDigits(s) ==> r == s
    decreases |s|
  {
    if |s| == 0 then ""
    else if s[0] == '_' then DropUnderscores(s[1..])
    else [s[0]] + DropUnderscores(s[1..])
  }

  /** `int(s)` in base 10: surrounding whitespace, an optional sign, digit
      groups; `None` where Python raises `ValueError`. */
  function ParseInt(s: string): (r: Option<int>)
    ensures r.Some? ==> |Strip(s)| > 0
  {
    var t := Strip(s);
    if |t| == 0 then None
    else
      var negative := t[0] == '-';
      var body := if t[0] == '-' || t[0] == '+' then t[1..] else t;
      if !DigitGroups(body) then None
      else
        DigitGroupsChars(body);
        var v: int := DigitsValue(DropUnderscores(body));
        Some(if negative then -v else v)
  }

  lemma StripOfDigits(s: string)
    requires |s| > 0 && (IsDigit(s[0]) || s[0] == '-') && IsDigit(s[|s| - 1])
    ensures Strip(s) == s
  {
  }

  /** `int(str(i)) == i`. */
  lemma ParseShowInt(i: int)
    ensures ParseInt(ShowInt(i)) == Some(i)
  {
    var m: nat := if i < 0 then -i else i;
    var digits := ShowNat(m);
    DigitsValueShowNat(m);
    assert DigitGroups(digits);
    assert DropUnderscores(digits) == digits;
    StripOfDigits(ShowInt(i));
    if i < 0 {
      assert ShowInt(i)[1..] == digits;
    }
  }
}

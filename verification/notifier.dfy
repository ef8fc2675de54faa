/** The message-building logic of the Discord notifier: the webhook check of
    the constructor, the compaction of PTR amount ranges (`$1,001 - $15,000`
    becomes `$1K-$15K`), the colour and fields of a single-trade embed, the
    description of a bulk embed and the choice between them. Sending is a
    parameter: the model says which embed goes out, not how. */
module Notifier {
  import opened Wrappers
  import opened Text

  const WebhookPrefix: string := "https://discord.com/api/webhooks/"

  datatype Notifier = Notifier(webhookUrl: string, channelName: string)

  /** The constructor: the URL must be non-empty and start with the Discord
      webhook prefix, otherwise it raises `ValueError`. */
  function NewNotifier(url: string, channelName: string): (r: Result<Notifier, string>)
    ensures r.Success? <==> StartsWith(url, WebhookPrefix)
    ensures r.Success? ==> r.value == Notifier(url, channelName)
  {
    if |url| == 0 || !StartsWith(url, WebhookPrefix) then Failure("Invalid Discord webhook URL")
    else Success(Notifier(url, channelName))
  }

  /** A plain-HTTP webhook is refused, though it names the same endpoint. */
  lemma PlainHttpRefused()
    ensures NewNotifier("http://discord.com/api/webhooks/1/x", "#t").Failure?
  {
    assert "http://discord.com/api/webhooks/1/x"[4] != WebhookPrefix[4];
  }

  // ---------------------------------------------------------------------
  // Amount ranges
  // ---------------------------------------------------------------------

  /** The amount with every `$` and `,` removed, then stripped. */
  function CleanAmount(a: string): string {
    Strip(RemoveAll(RemoveAll(a, "$"), ","))
  }

  /** The pieces of a cleaned amount: split on ` - ` when it occurs, else on
      `-` when that occurs; `None` when there is no dash at all. */
  function RangeParts(clean: string): (r: Option<seq<string>>)
    ensures r.None? <==> !Contains(clean, "-")
    ensures Contains(clean, " - ") ==> r == Some(Split(clean, " - "))
    ensures !Contains(clean, " - ") && Contains(clean, "-") ==> r == Some(Split(clean, "-"))
  {
    if Contains(clean, " - ") then
      assert Contains(clean, "-") by {
        var i :| 0 <= i <= |clean| - 3 && OccursAt(clean, " - ", i);
        assert clean[i + 1] == clean[i..i + 3][1];
        assert OccursAt(clean, "-", i + 1);
      }
      Some(Split(clean, " - "))
    else if Contains(clean, "-") then Some(Split(clean, "-"))
    else None
  }

  /** The unit a bound is shown in: millions, thousands or ones. */
  function ScaleUnit(v: int): (u: nat)
    ensures u > 0
  {
    if v >= 1_000_000 then 1_000_000 else if v >= 1_000 then 1_000 else 1
  }

  /** `format_amount`: a bound of a million or more in whole millions, of a
      thousand or more in whole thousands, else as it is. Floor division is
      Dafny's on the non-negative values it applies to. */
  function ScaleAmount(v: int): (r: string)
    ensures EndsWith(r, "M") <==> v >= 1_000_000
    ensures EndsWith(r, "K") <==> 1_000 <= v < 1_000_000
  {
    if v >= 1_000_000 then ShowInt(v / 1_000_000) + "M"
    else if v >= 1_000 then ShowInt(v / 1_000) + "K"
    else
      var r := ShowInt(v);
      assert r[|r| - 1] != 'M' && r[|r| - 1] != 'K' by {
        if v >= 0 {
          assert IsDigit(ShowNat(v)[|r| - 1]);
        } else {
          assert r[|r| - 1] == ShowNat(-v)[|ShowNat(-v)| - 1];
        }
      }
      r
  }

  /** A shown bound read back: the number times the unit its suffix names. */
  function ReadScaled(s: string): Option<int> {
    if EndsWith(s, "M") then
      match ParseInt(s[..|s| - 1])
      case Some(n) => Some(n * 1_000_000)
      case None => None
    else if EndsWith(s, "K") then
      match ParseInt(s[..|s| - 1])
      case Some(n) => Some(n * 1_000)
      case None => None
    else ParseInt(s)
  }

  /** A number with a unit suffix reads back as the number times the unit. */
  lemma ReadSuffixed(q: int, suffix: char, unit: int)
    requires (suffix == 'M' && unit == 1_000_000) || (suffix == 'K' && unit == 1_000)
    ensures ReadScaled(ShowInt(q) + [suffix]) == Some(q * unit)
  {
    var s := ShowInt(q) + [suffix];
    assert EndsWith(s, [suffix]);
    assert s[..|s| - 1] == ShowInt(q);
    ParseShowInt(q);
  }

  lemma RoundDown(v: int, u: int)
    requires u > 0
    ensures (v / u) * u == v - v % u
    ensures v - u < v - v % u <= v
  {
  }

  /** A bound rounded down to the unit it is shown in. */
  function RoundedDown(v: int): int {
    if v >= 1_000_000 then v - v % 1_000_000
    else if v >= 1_000 then v - v % 1_000
    else v
  }

  /** Compaction truncates: reading a shown bound back gives the bound
      rounded down to its unit, never up and by less than one unit. */
  lemma ScaleTruncates(v: int)
    ensures ReadScaled(ScaleAmount(v)) == Some(RoundedDown(v))
    ensures v - ScaleUnit(v) < RoundedDown(v) <= v
  {
    if v >= 1_000_000 {
      RoundDown(v, 1_000_000);
      MillionsReadBack(v);
    } else if v >= 1_000 {
      RoundDown(v, 1_000);
      ThousandsReadBack(v);
    } else {
      PlainReadBack(v);
    }
  }

  /** A bound of a million or more reads back in whole millions. */
  lemma MillionsReadBack(v: int)
    requires v >= 1_000_000
    ensures ReadScaled(ScaleAmount(v)) == Some(v - v % 1_000_000)
  {
    ScaledShape(v, 'M', 1_000_000);
    RoundDown(v, 1_000_000);
    ReadSuffixed(v / 1_000_000, 'M', 1_000_000);
  }

  /** A bound from a thousand up to a million reads back in whole
      thousands. */
  lemma ThousandsReadBack(v: int)
    requires 1_000 <= v < 1_000_000
    ensures ReadScaled(ScaleAmount(v)) == Some(v - v % 1_000)
  {
    ScaledShape(v, 'K', 1_000);
    RoundDown(v, 1_000);
    ReadSuffixed(v / 1_000, 'K', 1_000);
  }

  /** A bound of a thousand or more is shown as its quotient by the unit,
      then the unit's letter. */
  lemma ScaledShape(v: int, suffix: char, unit: int)
    requires (suffix == 'M' && unit == 1_000_000 && v >= 1_000_000)
          || (suffix == 'K' && unit == 1_000 && 1_000 <= v < 1_000_000)
    ensures ScaleAmount(v) == ShowInt(v / unit) + [suffix]
  {
  }

  /** A bound under a thousand reads back as it is. */
  lemma PlainReadBack(v: int)
    requires v < 1_000
    ensures ReadScaled(ScaleAmount(v)) == Some(v)
  {
    var s := ScaleAmount(v);
    assert s == ShowInt(v);
    assert !EndsWith(s, "M") && !EndsWith(s, "K");
    assert ReadScaled(s) == ParseInt(s);
    ParseShowInt(v);
  }

  /** `$lo-$hi` with both bounds compacted. */
  function Compacted(lo: int, hi: int): (r: string)
    ensures StartsWith(r, "$")
  {
    var r := "$" + ScaleAmount(lo) + "-$" + ScaleAmount(hi);
    assert r[0] == '$';
    r
  }

  /** `_format_amount_range`: `$lo-$hi` with both bounds compacted, or the
      input unchanged when it has no dash, does not split into exactly two
      pieces, or a piece is not an integer. */
  function FormatAmountRange(a: string): (r: string)
    ensures !Contains(CleanAmount(a), "-") ==> r == a
    ensures (RangeParts(CleanAmount(a)).Some? && |RangeParts(CleanAmount(a)).value| != 2) ==> r == a
    ensures var parts := RangeParts(CleanAmount(a));
      parts.Some? && |parts.value| == 2 ==>
        var lo := ParseInt(Strip(parts.value[0]));
        var hi := ParseInt(Strip(parts.value[1]));
        (lo.None? || hi.None? ==> r == a) && (lo.Some? && hi.Some? ==> r == Compacted(lo.value, hi.value))
    ensures r == a || StartsWith(r, "$")
  {
    match RangeParts(CleanAmount(a))
    case None => a
    case Some(parts) =>
      if |parts| != 2 then a
      else
        var lo := ParseInt(Strip(parts[0]));
        var hi := ParseInt(Strip(parts[1]));
        if lo.Some? && hi.Some? then Compacted(lo.value, hi.value) else a
  }

  /** Three digits, with leading zeros. */
  function Pad3(m: nat): (r: string)
    requires m < 1000
    ensures |r| == 3 && AllDigits(r)
  {
    [DigitChar(m / 100), DigitChar(m / 10 % 10), DigitChar(m % 10)]
  }

  /** A whole number with thousands separators, as the filings print it:
      `15,000`. */
  function Commas(n: nat): (r: string)
    ensures |r| > 0 && IsDigit(r[0])
    ensures forall i :: 0 <= i < |r| ==> IsDigit(r[i]) || r[i] == ','
    decreases n
  {
    if n < 1000 then ShowNat(n)
    else
      var head := Commas(n / 1000);
      var r := head + "," + Pad3(n % 1000);
      assert forall i :: |head| + 1 <= i < |r| ==> r[i] == Pad3(n % 1000)[i - |head| - 1];
      r
  }

  /** Euclidean division by ten, characterised. */
  lemma DivTen(n: int, q: int, r: int)
    requires n == 10 * q + r && 0 <= r < 10
    ensures n / 10 == q && n % 10 == r
  {
  }

  /** The last three digits of a number of four or more digits. */
  lemma ShowNatThousands(n: nat)
    requires n >= 1000
    ensures ShowNat(n) == ShowNat(n / 1000) + Pad3(n % 1000)
  {
    var q := n / 1000;
    var m := n % 1000;
    var n1 := n / 10;
    var n2 := n1 / 10;
    DivTen(n, 100 * q + m / 10, m % 10);
    DivTen(n1, 10 * q + m / 100, m / 10 % 10);
    DivTen(n2, q, m / 100);
    assert ShowNat(n) == ShowNat(n1) + [DigitChar(m % 10)];
    assert ShowNat(n1) == ShowNat(n2) + [DigitChar(m / 10 % 10)];
    assert ShowNat(n2) == ShowNat(q) + [DigitChar(m / 100)];
  }

  /** Dropping the separators gives the plain decimal digits back. */
  lemma {:induction false} CommasRemoved(n: nat)
    ensures RemoveAll(Commas(n), ",") == ShowNat(n)
    decreases n
  {
    if n < 1000 {
      RemoveAbsentChar(ShowNat(n), ',');
    } else {
      CommasRemoved(n / 1000);
      var p := Pad3(n % 1000);
      RemoveCharConcat(Commas(n / 1000) + ",", p, ',');
      RemoveCharConcat(Commas(n / 1000), ",", ',');
      RemoveAbsentChar(p, ',');
      ShowNatThousands(n);
    }
  }

  /** Splitting `d1 - d2` on ` - ` gives the two digit runs. */
  lemma SplitSpacedDash(d1: string, d2: string)
    requires |d1| > 0 && AllDigits(d1) && AllDigits(d2)
    ensures Split(d1 + " - " + d2, " - ") == [d1, d2]
  {
    var s := d1 + " - " + d2;
    var i := |d1|;
    assert OccursAt(s, " - ", i) by {
      assert s[i..i + 3] == " - ";
    }
    assert forall j :: 0 <= j < i ==> !OccursAt(s, " - ", j) by {
      forall j | 0 <= j < i
        ensures !OccursAt(s, " - ", j)
      {
        assert s[j] == d1[j];
        if j + 3 <= |s| {
          assert s[j..j + 3][0] == s[j];
        }
      }
    }
    assert s[..i] == d1;
    assert s[i + 3..] == d2;
    assert !Contains(d2, " - ") by {
      MissingLetter(d2, " - ", 0);
    }
    SplitOnce(s, " - ", i);
  }


  /** A spaced dash is split on before a bare one: a piece may keep a
      hyphen of its own, as long as neither piece holds ` - ` and the first
      does not end in ` -`. */
  lemma SpacedDashPreferred(x: string, y: string)
    requires !Contains(x, " - ") && !Contains(y, " - ") && !EndsWith(x, " -")
    ensures RangeParts(x + " - " + y) == Some([x, y])
  {
    var s := x + " - " + y;
    var i := |x|;
    assert OccursAt(s, " - ", i) by {
      assert s[i..i + 3] == " - ";
    }
    forall j | 0 <= j < i
      ensures !OccursAt(s, " - ", j)
    {
      if j + 3 <= i {
        assert s[j..j + 3] == x[j..j + 3];
        assert !OccursAt(x, " - ", j);
      } else if j + 1 == i {
        assert s[j + 1] == ' ';
        assert j + 3 <= |s| ==> s[j..j + 3][1] == s[j + 1];
      } else {
        assert s[j..j + 2] == x[j..];
        assert x[j..] != " -";
        assert j + 3 <= |s| ==> s[j..j + 3][..2] == s[j..j + 2];
      }
    }
    assert s[..i] == x;
    assert s[i + 3..] == y;
    SplitOnce(s, " - ", i);
  }

  /** `1-2 - 3` splits at the spaced dash, keeping the hyphen in `1-2`. */
  lemma HyphenKeptInPiece()
    ensures RangeParts("1-2 - 3") == Some(["1-2", "3"])
  {
    assert !Contains("1-2", " - ") by {
      MissingLetter("1-2", " - ", 0);
    }
    assert !Contains("3", " - ");
    assert "1-2" + " - " + "3" == "1-2 - 3";
    SpacedDashPreferred("1-2", "3");
  }

  /** Commas never prints a dollar sign. */
  lemma CommasHaveNoDollar(n: nat)
    ensures forall i :: 0 <= i < |Commas(n)| ==> Commas(n)[i] != '$'
  {
    var c := Commas(n);
    forall i | 0 <= i < |c| ensures c[i] != '$' { assert IsDigit(c[i]) || c[i] == ','; }
  }

  /** Removing the dollar signs from a printed range. */
  lemma DollarsRemoved(lo: nat, hi: nat)
    ensures RemoveAll("$" + Commas(lo) + " - $" + Commas(hi), "$") == Commas(lo) + " - " + Commas(hi)
  {
    CommasHaveNoDollar(lo);
    CommasHaveNoDollar(hi);
    DollarsDropped(Commas(lo), Commas(hi));
  }

  lemma DollarsDropped(c1: string, c2: string)
    requires forall i :: 0 <= i < |c1| ==> c1[i] != '$'
    requires forall i :: 0 <= i < |c2| ==> c2[i] != '$'
    ensures RemoveAll("$" + c1 + " - $" + c2, "$") == c1 + " - " + c2
  {
    RemoveCharConcat("$" + c1 + " - $", c2, '$');
    RemoveCharConcat("$" + c1, " - $", '$');
    RemoveCharConcat("$", c1, '$');
    RemoveAbsentChar(c1, '$');
    RemoveAbsentChar(c2, '$');
    DollarRemoved();
  }

  lemma DollarRemoved()
    ensures RemoveAll("$", "$") == ""
    ensures RemoveAll(" - $", "$") == " - "
  {
    assert RemoveAll("$", "$") == "";
    assert " - $" == " - " + "$";
    RemoveCharConcat(" - ", "$", '$');
    RemoveAbsentChar(" - ", '$');
  }

  /** Removing a character other than a space or a dash from `x - y`
      removes it from either side. */
  lemma RemoveAroundDash(x: string, y: string, c: char)
    requires c != ' ' && c != '-'
    ensures RemoveAll(x + " - " + y, [c]) == RemoveAll(x, [c]) + " - " + RemoveAll(y, [c])
  {
    RemoveCharConcat(x + " - ", y, c);
    RemoveCharConcat(x, " - ", c);
    RemoveAbsentChar(" - ", c);
  }

  /** Removing the separators from a range of two separated numbers. */
  lemma SeparatorsRemoved(lo: nat, hi: nat)
    ensures RemoveAll(Commas(lo) + " - " + Commas(hi), ",") == ShowNat(lo) + " - " + ShowNat(hi)
  {
    RemoveAroundDash(Commas(lo), Commas(hi), ',');
    CommasRemoved(lo);
    CommasRemoved(hi);
  }

  /** Two digit runs round a spaced dash have no space at either end. */
  lemma PlainRangeTrimmed(d1: string, d2: string)
    requires |d1| > 0 && |d2| > 0 && AllDigits(d1) && AllDigits(d2)
    ensures Strip(d1 + " - " + d2) == d1 + " - " + d2
  {
    var y := d1 + " - " + d2;
    assert y[0] == d1[0];
    assert y[|y| - 1] == d2[|d2| - 1];
    StripIdentity(y);
  }

  /** A printed range cleans to its two plain numbers round a spaced dash. */
  lemma CleansPrintedRange(lo: nat, hi: nat)
    ensures CleanAmount("$" + Commas(lo) + " - $" + Commas(hi)) == ShowNat(lo) + " - " + ShowNat(hi)
  {
    var x := Commas(lo) + " - " + Commas(hi);
    var y := ShowNat(lo) + " - " + ShowNat(hi);
    assert RemoveAll("$" + Commas(lo) + " - $" + Commas(hi), "$") == x by {
      DollarsRemoved(lo, hi);
    }
    assert RemoveAll(x, ",") == y by {
      SeparatorsRemoved(lo, hi);
    }
    assert Strip(y) == y by {
      PlainRangeTrimmed(ShowNat(lo), ShowNat(hi));
    }
  }

  /** Two plain numbers round a spaced dash split into the two numbers. */
  lemma SplitsPlainRange(lo: nat, hi: nat)
    ensures RangeParts(ShowNat(lo) + " - " + ShowNat(hi)) == Some([ShowNat(lo), ShowNat(hi)])
  {
    var clean := ShowNat(lo) + " - " + ShowNat(hi);
    assert OccursAt(clean, " - ", |ShowNat(lo)|);
    SplitSpacedDash(ShowNat(lo), ShowNat(hi));
  }

  /** A range as the filings print it compacts to its two scaled bounds:
      thousands separators and the spaces round the dash are ignored. */
  lemma CompactsPrintedRange(lo: nat, hi: nat)
    ensures FormatAmountRange("$" + Commas(lo) + " - $" + Commas(hi))
         == "$" + ScaleAmount(lo) + "-$" + ScaleAmount(hi)
  {
    var a := "$" + Commas(lo) + " - $" + Commas(hi);
    var d1 := ShowNat(lo);
    var d2 := ShowNat(hi);
    assert RangeParts(CleanAmount(a)) == Some([d1, d2]) by {
      CleansPrintedRange(lo, hi);
      SplitsPlainRange(lo, hi);
    }
    assert ParseInt(Strip(d1)) == Some(lo) by {
      PlainNumberReads(lo);
    }
    assert ParseInt(Strip(d2)) == Some(hi) by {
      PlainNumberReads(hi);
    }
    FormatFromParts(a, d1, d2, lo, hi);
  }

  /** A range whose two pieces read as numbers compacts to them. */
  lemma FormatFromParts(a: string, d1: string, d2: string, lo: int, hi: int)
    requires RangeParts(CleanAmount(a)) == Some([d1, d2])
    requires ParseInt(Strip(d1)) == Some(lo) && ParseInt(Strip(d2)) == Some(hi)
    ensures FormatAmountRange(a) == "$" + ScaleAmount(lo) + "-$" + ScaleAmount(hi)
  {
  }

  /** A plain number is already stripped and reads back as itself. */
  lemma PlainNumberReads(n: nat)
    ensures ParseInt(Strip(ShowNat(n))) == Some(n)
  {
    StripIdentity(ShowNat(n));
    ParseShowInt(n);
  }


  /** The range of the smallest PTR amount band. */
  lemma SmallestBandCompacts()
    ensures FormatAmountRange("$1,001 - $15,000") == "$1K-$15K"
  {
    SmallestBandPieces();
    CompactsPrintedRange(1001, 15000);
  }

  lemma SmallestBandPieces()
    ensures "$" + Commas(1001) + " - $" + Commas(15000) == "$1,001 - $15,000"
    ensures "$" + ScaleAmount(1001) + "-$" + ScaleAmount(15000) == "$1K-$15K"
  {
    SmallestBandPrinted();
    SmallestBandScaled();
  }

  lemma SmallestBandPrinted()
    ensures Commas(1001) == "1,001" && Commas(15000) == "15,000"
  {
    assert Commas(1) == "1" by {
      assert DigitChar(1) == '1';
    }
    assert Pad3(1) == "001" by {
      assert DigitChar(0) == '0' && DigitChar(1) == '1';
    }
    assert Commas(15) == "15" by {
      assert ShowNat(1) == "1" by { assert DigitChar(1) == '1'; }
      assert DigitChar(5) == '5';
    }
    assert Pad3(0) == "000" by {
      assert DigitChar(0) == '0';
    }
  }

  lemma SmallestBandScaled()
    ensures ScaleAmount(1001) == "1K" && ScaleAmount(15000) == "15K"
  {
    assert ScaleAmount(1001) == ShowInt(1) + "K" by {
      assert 1001 / 1000 == 1;
    }
    assert ScaleAmount(15000) == ShowInt(15) + "K" by {
      assert 15000 / 1000 == 15;
    }
    assert ShowInt(1) == "1" by {
      assert DigitChar(1) == '1';
    }
    assert ShowInt(15) == "15" by {
      assert ShowNat(1) == "1" by { assert DigitChar(1) == '1'; }
      assert DigitChar(5) == '5';
    }
  }



  // ---------------------------------------------------------------------
  // Single-trade embeds
  // ---------------------------------------------------------------------

  /** A stored trade as the notifier reads it; an empty `ticker` or
      `description` stands for a missing or empty entry. */
  datatype TradeNotice = TradeNotice(
    action: string, tradeType: string, assetName: string, ticker: string,
    amountRange: string, transactionDate: string, description: string)

  datatype Field = Field(name: string, value: string, inline: bool)

  datatype Embed = Embed(description: string, colour: int, fields: seq<Field>)

  const Purple: int := 0x800080
  const Green: int := 0x00ff00
  const Orange: int := 0xff8000
  const Blue: int := 0x0099ff
  const BulkOrange: int := 0xff9900

  predicate IsOptionType(tradeType: string) {
    tradeType == "option_call" || tradeType == "option_put"
  }

  /** The embed colour: purple for options; for anything else by the
      upper-cased action. */
  function EmbedColour(action: string, tradeType: string): (c: int)
    ensures c == Purple <==> IsOptionType(tradeType)
    ensures c == Green <==> !IsOptionType(tradeType) && Upper(action) == "BUY"
    ensures c == Orange <==> !IsOptionType(tradeType) && Upper(action) == "SELL"
  {
    if tradeType == "option_call" || tradeType == "option_put" then Purple
    else
      var a := Upper(action);
      if a == "BUY" then Green else if a == "SELL" then Orange else Blue
  }

  /** The colour ignores the case of the action. */
  lemma ColourIgnoresCase(action: string, tradeType: string)
    ensures EmbedColour(Upper(action), tradeType) == EmbedColour(action, tradeType)
  {
    UpperIdempotent(action);
  }

  /** The ` (TICKER)` suffix, empty without a ticker. */
  function TickerSuffix(ticker: string): string {
    if ticker != "" then " (" + ticker + ")" else ""
  }

  predicate HasOptionDetails(t: TradeNotice) {
    t.description != "" && IsOptionType(t.tradeType)
  }

  /** The names of the six inline fields every single-trade embed carries. */
  const BaseNames: seq<string> := ["Stock", "Type", "Action", "Amount", "Date", "PDF"]

  /** Their values: asset and ticker, type, action in bold, compacted
      amount, transaction date, and a link to the filing. */
  function BaseValues(t: TradeNotice, filingUrl: string): (vs: seq<string>)
    ensures |vs| == 6
  {
    [ t.assetName + TickerSuffix(t.ticker), Title(t.tradeType), "**" + t.action + "**",
      FormatAmountRange(t.amountRange), t.transactionDate, "[View Filing](" + filingUrl + ")" ]
  }

  /** The six inline fields. */
  function BaseFields(t: TradeNotice, filingUrl: string): (fs: seq<Field>)
    ensures |fs| == 6
    ensures forall k :: 0 <= k < 6 ==> fs[k] == Field(BaseNames[k], BaseValues(t, filingUrl)[k], true)
  {
    var vs := BaseValues(t, filingUrl);
    seq(6, k requires 0 <= k < 6 => Field(BaseNames[k], vs[k], true))
  }

  /** The fields of a single-trade embed: the six inline fields, then an
      "Option Details" field holding the description for an option trade
      that has one. */
  function TradeFields(t: TradeNotice, filingUrl: string): (fs: seq<Field>)
    ensures |fs| == (if HasOptionDetails(t) then 7 else 6)
    ensures fs[..6] == BaseFields(t, filingUrl)
    ensures |fs| == 7 ==> fs[6] == Field("Option Details", t.description, false)
  {
    var base := BaseFields(t, filingUrl);
    if HasOptionDetails(t) then base + [Field("Option Details", t.description, false)]
    else base
  }

  /** An "Option Details" field appears exactly for option trades with a
      description. */
  lemma OptionDetailsIff(t: TradeNotice, filingUrl: string)
    ensures (exists k :: 0 <= k < |TradeFields(t, filingUrl)| && TradeFields(t, filingUrl)[k].name == "Option Details")
        <==> HasOptionDetails(t)
  {
    var fs := TradeFields(t, filingUrl);
    BaseNamesDiffer();
    assert forall k :: 0 <= k < 6 ==> fs[k].name == BaseNames[k];
    if HasOptionDetails(t) {
      assert fs[6].name == "Option Details";
    }
  }

  lemma BaseNamesDiffer()
    ensures forall k :: 0 <= k < 6 ==> BaseNames[k] != "Option Details"
  {
    forall k | 0 <= k < 6 ensures BaseNames[k] != "Option Details" {
      assert |BaseNames[k]| < 14;
    }
  }

  /** The "Amount" field shows the range compacted, and the "Stock" field
      names the asset with its ticker. */
  lemma AmountAndStockFields(t: TradeNotice, filingUrl: string)
    ensures TradeFields(t, filingUrl)[3] == Field("Amount", FormatAmountRange(t.amountRange), true)
    ensures TradeFields(t, filingUrl)[0] == Field("Stock", t.assetName + TickerSuffix(t.ticker), true)
  {
    var fs := TradeFields(t, filingUrl);
    assert fs[3] == BaseFields(t, filingUrl)[3];
    assert fs[0] == BaseFields(t, filingUrl)[0];
  }

  /** `_format_trade_message`, without the title, footer and timestamp. */
  function TradeEmbed(t: TradeNotice, filingUrl: string): (e: Embed)
    ensures e.colour == EmbedColour(t.action, t.tradeType)
    ensures e.fields == TradeFields(t, filingUrl)
  {
    Embed("", EmbedColour(t.action, t.tradeType), TradeFields(t, filingUrl))
  }

  // ---------------------------------------------------------------------
  // Bulk embeds
  // ---------------------------------------------------------------------

  const BulkShown: nat := 5

  /** One numbered line of the bulk listing. */
  function BulkLine(number: nat, t: TradeNotice): (r: string)
    ensures EndsWith(r, "\n")
  {
    ShowNat(number) + ". " + t.action + " " + Title(t.tradeType) + " - " + t.assetName
      + TickerSuffix(t.ticker) + " - " + t.amountRange + "\n"
  }

  /** The listed lines: the first five trades, numbered from 1. */
  function BulkListing(ts: seq<TradeNotice>): (lines: seq<string>)
    ensures |lines| == if |ts| < BulkShown then |ts| else BulkShown
    ensures forall k :: 0 <= k < |lines| ==> lines[k] == BulkLine(k + 1, ts[k])
  {
    var n := if |ts| < BulkShown then |ts| else BulkShown;
    seq(n, k requires 0 <= k < n => BulkLine(k + 1, ts[k]))
  }

  function Concat(ss: seq<string>): string
    decreases |ss|
  {
    if |ss| == 0 then "" else Concat(ss[..|ss| - 1]) + ss[|ss| - 1]
  }

  function BulkHeader(n: nat): string {
    "**" + ShowNat(n) + " new trades** found in latest filing\n\n"
  }

  /** The closing note naming how many trades were not listed. */
  function BulkMore(n: nat): string {
    if n > BulkShown then "\n... and " + ShowNat(n - BulkShown) + " more trades" else ""
  }

  /** The description of the bulk embed: header, listing, closing note. */
  function BulkDescription(ts: seq<TradeNotice>): (r: string)
    ensures StartsWith(r, BulkHeader(|ts|))
  {
    var h := BulkHeader(|ts|);
    var r := h + Concat(BulkListing(ts)) + BulkMore(|ts|);
    assert r[..|h|] == h;
    r
  }

  /** Only the first five trades are looked at for the listing. */
  lemma ListingSeesFirstFive(ts: seq<TradeNotice>, us: seq<TradeNotice>)
    requires |ts| >= BulkShown && |us| >= BulkShown && ts[..BulkShown] == us[..BulkShown]
    ensures BulkListing(ts) == BulkListing(us)
  {
    forall k | 0 <= k < BulkShown
      ensures ts[k] == us[k]
    {
      assert ts[k] == ts[..BulkShown][k];
    }
  }

  /** The listing and the closing note account for every trade: the listed
      ones plus the number the note gives make up the whole batch. */
  lemma BulkAccountsForAll(ts: seq<TradeNotice>)
    ensures |BulkListing(ts)| + (if |ts| > BulkShown then |ts| - BulkShown else 0) == |ts|
    ensures BulkMore(|ts|) != "" <==> |ts| > BulkShown
  {
  }

  lemma {:induction false} ConcatEndsWithLast(ss: seq<string>)
    requires |ss| > 0 && EndsWith(ss[|ss| - 1], "\n")
    ensures EndsWith(Concat(ss), "\n")
  {
    var c := Concat(ss);
    var last := ss[|ss| - 1];
    assert c == Concat(ss[..|ss| - 1]) + last;
    assert c[|c| - 1] == last[|last| - 1];
  }

  /** The description ends with the closing note exactly when some trades
      were left out of the listing. */
  lemma MoreNoteIff(ts: seq<TradeNotice>)
    ensures EndsWith(BulkDescription(ts), " more trades") <==> |ts| > BulkShown
  {
    if |ts| > BulkShown {
      MoreNoteShown(ts);
    } else {
      NoMoreNote(ts);
    }
  }

  lemma MoreNoteShown(ts: seq<TradeNotice>)
    requires |ts| > BulkShown
    ensures EndsWith(BulkDescription(ts), " more trades")
  {
    var m := BulkMore(|ts|);
    assert EndsWith(m, " more trades");
    EndsWithAfter(BulkHeader(|ts|) + Concat(BulkListing(ts)), m, " more trades");
  }

  lemma NoMoreNote(ts: seq<TradeNotice>)
    requires |ts| <= BulkShown
    ensures !EndsWith(BulkDescription(ts), " more trades")
  {
    var h := BulkHeader(|ts|);
    var body := Concat(BulkListing(ts));
    var d := BulkDescription(ts);
    assert d == h + body;
    assert d[|d| - 1] == '\n' by {
      if |BulkListing(ts)| > 0 {
        ConcatEndsWithLast(BulkListing(ts));
        assert d[|d| - 1] == body[|body| - 1];
      } else {
        assert d == h;
      }
    }
  }

  /** A suffix of the tail is a suffix of the whole. */
  lemma EndsWithAfter(x: string, m: string, suffix: string)
    requires EndsWith(m, suffix)
    ensures EndsWith(x + m, suffix)
  {
    var d := x + m;
    assert d[|d| - |suffix|..] == m[|m| - |suffix|..];
  }


  /** `_format_bulk_trade_message`, without the title, footer and timestamp. */
  function BulkEmbed(ts: seq<TradeNotice>, filingUrl: string): (e: Embed)
    ensures e.colour == BulkOrange
    ensures e.description == BulkDescription(ts)
    ensures |e.fields| == 1 && !e.fields[0].inline
  {
    Embed(BulkDescription(ts), BulkOrange, [Field("PDF", "[View Full Filing](" + filingUrl + ")", false)])
  }

  // ---------------------------------------------------------------------
  // Dispatch
  // ---------------------------------------------------------------------

  /** What `send_bulk_trade_notification` sends: nothing for no trades, the
      single-trade embed for one, the bulk embed for more. */
  function BulkDispatch(ts: seq<TradeNotice>, filingUrl: string): (r: Option<Embed>)
    ensures r.None? <==> |ts| == 0
    ensures |ts| == 1 ==> r == Some(TradeEmbed(ts[0], filingUrl))
    ensures |ts| > 1 ==> r == Some(BulkEmbed(ts, filingUrl))
  {
    if |ts| == 0 then None
    else if |ts| == 1 then Some(TradeEmbed(ts[0], filingUrl))
    else Some(BulkEmbed(ts, filingUrl))
  }

  /** The boolean the call returns, given whether the webhook accepts an
      embed: true when there was nothing to send. */
  function SendBulkTradeNotification(ts: seq<TradeNotice>, filingUrl: string, delivered: Embed -> bool): (ok: bool)
    ensures |ts| == 0 ==> ok
    ensures |ts| > 0 ==> ok == delivered(BulkDispatch(ts, filingUrl).value)
  {
    match BulkDispatch(ts, filingUrl)
    case None => true
    case Some(e) => delivered(e)
  }

  /** A batch of one is sent exactly as a single notification would be. */
  lemma SingleBatchIsSingle(t: TradeNotice, filingUrl: string, delivered: Embed -> bool)
    ensures SendBulkTradeNotification([t], filingUrl, delivered) == delivered(TradeEmbed(t, filingUrl))
  {
  }
}

/** The context resolver of the PTR parser: the trade type read from the
    five lines starting at a trade line, and the `D:` description block that
    option trades carry below it. */
module Context {
  import opened Wrappers
  import opened Text

  /** `TradeType` (`pdf_parser.py:8-11`). */
  datatype TradeType = Stock | OptionCall | OptionPut {

    /** The enum's `.value`. */
    function Value(): string {
      match this
      case Stock => "stock"
      case OptionCall => "option_call"
      case OptionPut => "option_put"
    }

    predicate IsOption() { this != Stock }
  }

  const OptionKeywords: seq<string> := ["CALL", "PUT", "OPTION", "STRIKE", "EXPIRATION"]

  /** `_determine_trade_type_from_context`: stock unless the upper-cased text
      holds an option word; then a call whenever CALL occurs, a put when only
      PUT does, and a call for OPTION, STRIKE or EXPIRATION alone. The tests
      are plain substring tests. */
  function KindFromText(context: string): (r: TradeType)
    ensures r == Stock <==> !ContainsAny(Upper(context), OptionKeywords)
    ensures r == OptionPut <==> Contains(Upper(context), "PUT") && !Contains(Upper(context), "CALL")
  {
    var u := Upper(context);
    assert Contains(u, "CALL") ==> ContainsAny(u, OptionKeywords) by {
      assert OptionKeywords[0] == "CALL";
    }
    assert Contains(u, "PUT") ==> ContainsAny(u, OptionKeywords) by {
      assert OptionKeywords[1] == "PUT";
    }
    if AnyIn(u, OptionKeywords) then
      if Contains(u, "CALL") then OptionCall
      else if Contains(u, "PUT") then OptionPut
      else OptionCall
    else Stock
  }

  /** The lines the type is read from: `[i, min(i + 5, len))`. */
  function KindWindow(lines: seq<string>, i: nat): (w: seq<string>)
    requires i <= |lines|
    ensures |w| == (if i + 5 < |lines| then 5 else |lines| - i)
    ensures forall k :: 0 <= k < |w| ==> w[k] == lines[i + k]
  {
    lines[i..if i + 5 < |lines| then i + 5 else |lines|]
  }

  /** `_determine_trade_type_from_ptr_context`: the window joined with single
      spaces and classified as a whole; no lines at all means stock. */
  function KindAt(lines: seq<string>, i: nat): (r: TradeType)
    requires i <= |lines|
    ensures |lines| == 0 ==> r == Stock
  {
    if |lines| == 0 then Stock
    else KindFromText(Join(KindWindow(lines, i), " "))
  }

  /** The type depends on the five-line window only: two documents that agree
      there give the same type, whatever else they hold. */
  lemma KindIsLocal(a: seq<string>, i: nat, b: seq<string>, j: nat)
    requires i < |a| && j < |b|
    requires KindWindow(a, i) == KindWindow(b, j)
    ensures KindAt(a, i) == KindAt(b, j)
  {
  }

  /** The tests are on substrings, not words: "Computer" reads as a put. */
  lemma ComputerReadsAsPut()
    ensures KindFromText("Computer") == OptionPut
  {
    var u := Upper("Computer");
    assert u == "COMPUTER";
    assert OccursAt(u, "PUT", 3);
    MissingLetter(u, "CALL", 3);
  }

  /** A word of the option family other than CALL and PUT gives a call. */
  lemma StrikeAloneIsCall()
    ensures KindFromText("Strike 150") == OptionCall
  {
    var u := Upper("Strike 150");
    assert u == "STRIKE 150";
    assert OccursAt(u, "STRIKE", 0);
    MissingLetter(u, "CALL", 0);
    MissingLetter(u, "PUT", 1);
  }

  // ---------------------------------------------------------------------
  // The description block
  // ---------------------------------------------------------------------

  /** A line as the description scan reads it: stripped, NUL characters
      removed, stripped again. */
  function CleanLine(line: string): (r: string)
    ensures forall k :: 0 <= k < |r| ==> r[k] != '\0'
    ensures |r| > 0 ==> !IsSpace(r[0]) && !IsSpace(r[|r| - 1])
    ensures (forall k :: 0 <= k < |line| ==> line[k] != '\0') ==> r == Strip(line)
  {
    NulsGone(Strip(line));
    NoNulUnchanged(line);
    Strip(RemoveAll(Strip(line), "\0"))
  }

  lemma NulsGone(t: string)
    ensures var r := Strip(RemoveAll(t, "\0"));
      forall k :: 0 <= k < |r| ==> r[k] != '\0'
  {
    var u := RemoveAll(t, "\0");
    RemoveCharGone(t, '\0');
    InfixAvoids(u, Strip(u), '\0');
  }

  lemma NoNulUnchanged(line: string)
    ensures (forall k :: 0 <= k < |line| ==> line[k] != '\0') ==> Strip(RemoveAll(Strip(line), "\0")) == Strip(line)
  {
    if forall k :: 0 <= k < |line| ==> line[k] != '\0' {
      var t := Strip(line);
      InfixAvoids(line, t, '\0');
      RemoveAbsentChar(t, '\0');
      StripIdentity(t);
    }
  }

  /** The scanned lines, cleaned. */
  function CleanAll(lines: seq<string>): (cls: seq<string>)
    ensures |cls| == |lines|
    ensures forall k :: 0 <= k < |lines| ==> cls[k] == CleanLine(lines[k])
  {
    seq(|lines|, k requires 0 <= k < |lines| => CleanLine(lines[k]))
  }

  predicate MarksDescription(cl: string) { StartsWith(cl, "D:") }

  predicate MarksNextTrade(cl: string) { StartsWith(cl, "SP ") }

  predicate MarksLocation(cl: string) { StartsWith(cl, "L:") }

  /** The parts the scan of `_extract_description_for_trade` collects from
      the cleaned lines `cls[j..]`; `found` tells whether a `D:` line was
      seen. A `D:` line contributes its text after the marker. */
  function DescriptionFrom(cls: seq<string>, j: nat, found: bool): (parts: seq<string>)
    requires j <= |cls|
    decreases |cls| - j
  {
    if j == |cls| then []
    else if MarksDescription(cls[j]) then
      [Strip(cls[j][2..])] + DescriptionFrom(cls, j + 1, true)
    else if found then
      if MarksNextTrade(cls[j]) || MarksLocation(cls[j]) then []
      else [cls[j]] + DescriptionFrom(cls, j + 1, true)
    else if MarksNextTrade(cls[j]) then []
    else DescriptionFrom(cls, j + 1, false)
  }

  /** The end of the scan: `min(i + 10, len)`. */
  function ScanEnd(lines: seq<string>, i: nat): (hi: nat)
    requires i < |lines|
    ensures i < hi <= |lines| && hi <= i + 10
  {
    if i + 10 < |lines| then i + 10 else |lines|
  }

  /** The lines the description scan reads: `i + 1 .. min(i + 10, len) - 1`. */
  function ScanWindow(lines: seq<string>, i: nat): (w: seq<string>)
    requires i < |lines|
    ensures |w| <= 9
  {
    lines[i + 1..ScanEnd(lines, i)]
  }

  /** `_extract_description_for_trade` for the trade on line `i`: the parts
      collected from the scanned lines, joined with single spaces. */
  function Description(lines: seq<string>, i: nat): (r: string)
    requires i < |lines|
    ensures (forall k :: 0 <= k < |ScanWindow(lines, i)| ==> !MarksDescription(CleanLine(ScanWindow(lines, i)[k])))
      ==> r == ""
  {
    var cls := CleanAll(ScanWindow(lines, i));
    assert (forall k :: 0 <= k < |cls| ==> !MarksDescription(cls[k])) ==> DescriptionFrom(cls, 0, false) == [] by {
      if forall k :: 0 <= k < |cls| ==> !MarksDescription(cls[k]) {
        NoMarkerNoDescription(cls, 0);
      }
    }
    Join(DescriptionFrom(cls, 0, false), " ")
  }

  /** Without a `D:` line there is no description. */
  lemma {:induction false} NoMarkerNoDescription(cls: seq<string>, j: nat)
    requires j <= |cls|
    requires forall k :: j <= k < |cls| ==> !MarksDescription(cls[k])
    ensures DescriptionFrom(cls, j, false) == []
    decreases |cls| - j
  {
    if j < |cls| && !MarksNextTrade(cls[j]) {
      NoMarkerNoDescription(cls, j + 1);
    }
  }

  /** An `SP ` line met before any `D:` line ends the scan empty-handed. */
  lemma {:induction false} NextTradeFirstAborts(cls: seq<string>, j: nat, k: nat)
    requires j <= k < |cls|
    requires MarksNextTrade(cls[k])
    requires forall m :: j <= m <= k ==> !MarksDescription(cls[m])
    ensures DescriptionFrom(cls, j, false) == []
    decreases k - j
  {
    if j < k && !MarksNextTrade(cls[j]) {
      NextTradeFirstAborts(cls, j + 1, k);
    }
  }

  /** The description starts at the first `D:` line, marker removed, when no
      `SP ` line comes before it. */
  lemma {:induction false} StartsAtFirstMarker(cls: seq<string>, j: nat, k: nat)
    requires j <= k < |cls|
    requires MarksDescription(cls[k])
    requires forall m :: j <= m < k ==> !MarksDescription(cls[m]) && !MarksNextTrade(cls[m])
    ensures DescriptionFrom(cls, j, false)
         == [Strip(cls[k][2..])] + DescriptionFrom(cls, k + 1, true)
    decreases k - j
  {
    if j < k {
      StartsAtFirstMarker(cls, j + 1, k);
    }
  }

  /** What a line contributes once the description has started: its text
      after the marker for a `D:` line, the line itself otherwise. */
  function Part(cl: string): string {
    if MarksDescription(cl) then Strip(cl[2..]) else cl
  }

  /** The parts of lines `cls[j..k]`, in order. */
  function Parts(cls: seq<string>, j: nat, k: nat): (ps: seq<string>)
    requires j <= k <= |cls|
    ensures |ps| == k - j
    ensures forall m :: 0 <= m < k - j ==> ps[m] == Part(cls[j + m])
  {
    seq(k - j, m requires 0 <= m < k - j => Part(cls[j + m]))
  }

  /** After a `D:` line every following line is kept, `D:` lines with their
      marker removed, up to the first `SP ` or `L:` line, which ends the
      scan, or to the end of the window. */
  lemma {:induction false} CollectsUntilSection(cls: seq<string>, j: nat, k: nat)
    requires j <= k <= |cls|
    requires k < |cls| ==> MarksNextTrade(cls[k]) || MarksLocation(cls[k])
    requires forall m :: j <= m < k ==> !MarksNextTrade(cls[m]) && !MarksLocation(cls[m])
    ensures DescriptionFrom(cls, j, true) == Parts(cls, j, k)
    decreases k - j
  {
    if j < k {
      CollectsUntilSection(cls, j + 1, k);
      CollectStep(cls, j);
      PartsStep(cls, j, k);
    } else if k < |cls| {
      CollectStop(cls, k);
    }
  }

  lemma PartsStep(cls: seq<string>, j: nat, k: nat)
    requires j < k <= |cls|
    ensures Parts(cls, j, k) == [Part(cls[j])] + Parts(cls, j + 1, k)
  {
    var ps := Parts(cls, j, k);
    var rest := Parts(cls, j + 1, k);
    assert forall m :: 0 < m < k - j ==> ps[m] == rest[m - 1];
  }

  /** Inside the description a line that opens no new section is kept. */
  lemma CollectStep(cls: seq<string>, j: nat)
    requires j < |cls| && !MarksNextTrade(cls[j]) && !MarksLocation(cls[j])
    ensures DescriptionFrom(cls, j, true) == [Part(cls[j])] + DescriptionFrom(cls, j + 1, true)
  {
  }

  /** Inside the description an `SP ` or `L:` line ends it. */
  lemma CollectStop(cls: seq<string>, k: nat)
    requires k < |cls| && (MarksNextTrade(cls[k]) || MarksLocation(cls[k]))
    ensures DescriptionFrom(cls, k, true) == []
  {
    var cl := cls[k];
    assert cl[0] == 'S' || cl[0] == 'L' by {
      if MarksNextTrade(cl) {
        assert cl[..3][0] == 'S';
      } else {
        assert cl[..2][0] == 'L';
      }
    }
    assert !MarksDescription(cl);
  }

  /** The parts collected from cleaned lines whose first `D:` line is at
      `d`, with no `SP ` line before it, and whose first `SP ` or `L:` line
      after it is at `e` (or none when `e` is their number): the parts of
      lines `d .. e - 1`. */
  lemma PartsFromFirstMarker(cls: seq<string>, d: nat, e: nat)
    requires d < e <= |cls| && MarksDescription(cls[d])
    requires forall m :: 0 <= m < d ==> !MarksDescription(cls[m]) && !MarksNextTrade(cls[m])
    requires e < |cls| ==> MarksNextTrade(cls[e]) || MarksLocation(cls[e])
    requires forall m :: d < m < e ==> !MarksNextTrade(cls[m]) && !MarksLocation(cls[m])
    ensures DescriptionFrom(cls, 0, false) == Parts(cls, d, e)
  {
    StartsAtFirstMarker(cls, 0, d);
    CollectsUntilSection(cls, d + 1, e);
    PartsStep(cls, d, e);
  }

  /** The description of the trade on line `i`, read from its cleaned
      window as above, is those parts joined with single spaces. */
  lemma DescriptionContents(lines: seq<string>, i: nat, d: nat, e: nat)
    requires i < |lines|
    requires var cls := CleanAll(ScanWindow(lines, i));
      && d < e <= |cls| && MarksDescription(cls[d])
      && (forall m :: 0 <= m < d ==> !MarksDescription(cls[m]) && !MarksNextTrade(cls[m]))
      && (e < |cls| ==> MarksNextTrade(cls[e]) || MarksLocation(cls[e]))
      && (forall m :: d < m < e ==> !MarksNextTrade(cls[m]) && !MarksLocation(cls[m]))
    ensures Description(lines, i) == Join(Parts(CleanAll(ScanWindow(lines, i)), d, e), " ")
  {
    PartsFromFirstMarker(CleanAll(ScanWindow(lines, i)), d, e);
  }

  /** Only lines `i + 1 .. min(i + 10, len) - 1` are read: documents that
      agree there give the same description. */
  lemma DescriptionIsLocal(a: seq<string>, b: seq<string>, i: nat)
    requires i < |a| && i < |b|
    requires ScanWindow(a, i) == ScanWindow(b, i)
    ensures Description(a, i) == Description(b, i)
  {
  }
}

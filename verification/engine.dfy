/** The parse loop of the PTR parser (`_parse_text_for_trades`): the text is
    split into lines, and each line the classifier accepts is handed to the
    extractor, whose record, if any, is appended in line order. */
module Engine {
  import opened Wrappers
  import opened Text
  import opened Patterns
  import opened Classifier
  import opened Extractor

  /** The record line `i` contributes: one when the classifier accepts the
      line and the extractor reads a record from it. */
  function RecordAt(lines: seq<string>, i: nat): Option<Trade>
    requires i < |lines|
  {
    if IsTradeLine(lines[i]) then ParseTradeLine(lines, i) else None
  }

  /** What every line contributes, line by line. */
  function Contributions(lines: seq<string>): (rs: seq<Option<Trade>>)
    ensures |rs| == |lines|
    ensures forall i :: 0 <= i < |lines| ==> rs[i] == RecordAt(lines, i)
  {
    seq(|lines|, i requires 0 <= i < |lines| => RecordAt(lines, i))
  }

  /** The present values among `rs[0 .. n - 1]`, in order. */
  function Collect<T>(rs: seq<Option<T>>, n: nat): seq<T>
    requires n <= |rs|
    decreases n
  {
    if n == 0 then []
    else
      match rs[n - 1]
      case Some(t) => Collect(rs, n - 1) + [t]
      case None => Collect(rs, n - 1)
  }

  /** The positions among `0 .. n - 1` where `rs` holds a value, in order. */
  function Present<T>(rs: seq<Option<T>>, n: nat): seq<nat>
    requires n <= |rs|
    decreases n
  {
    if n == 0 then []
    else if rs[n - 1].Some? then Present(rs, n - 1) + [n - 1]
    else Present(rs, n - 1)
  }

  /** The k-th collected value sits at the k-th present position; positions
      increase, and none holding a value is skipped. */
  lemma {:induction false} CollectProvenance<T>(rs: seq<Option<T>>, n: nat)
    requires n <= |rs|
    ensures |Collect(rs, n)| == |Present(rs, n)| <= n
    ensures forall k :: 0 <= k < |Present(rs, n)| ==>
      Present(rs, n)[k] < n && rs[Present(rs, n)[k]] == Some(Collect(rs, n)[k])
    ensures forall k, m :: 0 <= k < m < |Present(rs, n)| ==> Present(rs, n)[k] < Present(rs, n)[m]
    ensures forall j :: 0 <= j < n && rs[j].Some? ==> j in Present(rs, n)
    decreases n
  {
    if n > 0 {
      CollectProvenance(rs, n - 1);
    }
  }

  /** The records of lines `0 .. n - 1`, in line order. */
  function ParsePrefix(lines: seq<string>, n: nat): seq<Trade>
    requires n <= |lines|
  {
    Collect(Contributions(lines), n)
  }

  /** The lines among `0 .. n - 1` that contribute a record, in order. */
  function Sources(lines: seq<string>, n: nat): seq<nat>
    requires n <= |lines|
  {
    Present(Contributions(lines), n)
  }

  /** The k-th record comes from the k-th contributing line: every record
      comes from a line the classifier accepted, lines contribute at most one
      record each and in increasing order, and no contributing line is
      skipped. */
  lemma Provenance(lines: seq<string>, n: nat)
    requires n <= |lines|
    ensures |ParsePrefix(lines, n)| == |Sources(lines, n)| <= n
    ensures forall k :: 0 <= k < |Sources(lines, n)| ==>
      && Sources(lines, n)[k] < n
      && IsTradeLine(lines[Sources(lines, n)[k]])
      && RecordAt(lines, Sources(lines, n)[k]) == Some(ParsePrefix(lines, n)[k])
    ensures forall k, m :: 0 <= k < m < |Sources(lines, n)| ==> Sources(lines, n)[k] < Sources(lines, n)[m]
    ensures forall j :: 0 <= j < n && RecordAt(lines, j).Some? ==> j in Sources(lines, n)
  {
    var rs := Contributions(lines);
    CollectProvenance(rs, n);
    forall k | 0 <= k < |Sources(lines, n)|
      ensures IsTradeLine(lines[Sources(lines, n)[k]])
    {
      var j := Sources(lines, n)[k];
      assert RecordAt(lines, j).Some?;
    }
  }

  /** The lines of a text: `text.split('\n')`. */
  function Lines(text: string): (lines: seq<string>)
    ensures |lines| > 0
    ensures Join(lines, "\n") == text
  {
    JoinSplit(text, "\n");
    Split(text, "\n")
  }

  /** `_parse_text_for_trades`: one pass over the lines. */
  method ParseTextForTrades(text: string) returns (trades: seq<Trade>)
    ensures trades == ParsePrefix(Lines(text), |Lines(text)|)
    ensures |trades| <= |Lines(text)|
  {
    var lines := Split(text, "\n");
    assert lines == Lines(text);
    trades := [];
    var i := 0;
    while i < |lines|
      invariant 0 <= i <= |lines|
      invariant trades == Collect(Contributions(lines), i)
    {
      ghost var rs := Contributions(lines);
      assert rs[i] == RecordAt(lines, i);
      if IsTradeLine(lines[i]) {
        var trade := ParseTradeLine(lines, i);
        if trade.Some? {
          trades := trades + [trade.value];
        }
      }
      i := i + 1;
    }
    CollectProvenance(Contributions(lines), |lines|);
  }

  /** A document with no lines has no trades, and neither has empty text. */
  lemma EmptyInputNoTrades()
    ensures ParsePrefix([], 0) == []
    ensures ParsePrefix(Lines(""), |Lines("")|) == []
  {
    assert Lines("") == [""] by {
      assert IndexOf("", "\n").None?;
    }
    assert !IsTradeLine("") by {
      assert !Contains(Upper(""), "BUY");
      assert !ContainsAny(Upper(""), ActionKeywords);
    }
  }
}

/** How the Pelosi tracker picks the filings to process
    (`_find_new_filings` in `pelosi_tracker.py`): it walks the scraped
    filings newest first, collects those the database has not seen, stops
    at the first one it has, and on a fresh database keeps only the two
    newest. The database lookup is a parameter; `None` stands for a lookup
    that raises. */
module Tracker {
  import opened Wrappers
  import opened Scraper

  /** Where the walk ended: the unseen filings met first, and whether a
      processed filing stopped it. */
  datatype Walk = Walk(unseen: seq<Filing>, hitProcessed: bool)

  /** The filings below `k` are all unseen. */
  predicate AllUnseen(fs: seq<Filing>, processed: string -> Option<bool>, k: int)
    requires k <= |fs|
  {
    forall i :: 0 <= i < k ==> processed(fs[i].filingId) == Some(false)
  }

  /** The loop of `_find_new_filings`, or `None` when a lookup raises. */
  function WalkNew(fs: seq<Filing>, processed: string -> Option<bool>): (w: Option<Walk>)
    ensures w.Some? ==> |w.value.unseen| <= |fs| && w.value.unseen == fs[..|w.value.unseen|]
    ensures w.Some? ==> AllUnseen(fs, processed, |w.value.unseen|)
    ensures w.Some? && w.value.hitProcessed ==>
      |w.value.unseen| < |fs| && processed(fs[|w.value.unseen|].filingId) == Some(true)
    ensures w.Some? && !w.value.hitProcessed ==> w.value.unseen == fs
    decreases |fs|
  {
    if |fs| == 0 then Some(Walk([], false))
    else
      match processed(fs[0].filingId)
      case None => None
      case Some(true) => Some(Walk([], true))
      case Some(false) =>
        match WalkNew(fs[1..], processed)
        case None => None
        case Some(w) =>
          assert fs == [fs[0]] + fs[1..];
          Some(Walk([fs[0]] + w.unseen, w.hitProcessed))
  }

  const FreshLimit: nat := 2

  /** `_find_new_filings`: the unseen filings before the first processed
      one; when no processed filing was met, at most the two newest; and
      nothing when the database lookup fails. */
  function FindNewFilings(fs: seq<Filing>, processed: string -> Option<bool>): (r: seq<Filing>)
    ensures |r| <= |fs| && r == fs[..|r|]
    ensures AllUnseen(fs, processed, |r|)
    ensures |r| < |fs| && |r| > FreshLimit ==> processed(fs[|r|].filingId) == Some(true)
  {
    match WalkNew(fs, processed)
    case None => []
    case Some(w) =>
      if !w.hitProcessed && |w.unseen| > FreshLimit then w.unseen[..FreshLimit] else w.unseen
  }

  /** A processed filing ends the walk: everything newer is returned, in
      order. */
  lemma {:induction false} WalkStopsAtProcessed(fs: seq<Filing>, processed: string -> Option<bool>, k: nat)
    requires k < |fs| && processed(fs[k].filingId) == Some(true)
    requires AllUnseen(fs, processed, k)
    ensures WalkNew(fs, processed) == Some(Walk(fs[..k], true))
    decreases k
  {
    if k > 0 {
      assert processed(fs[0].filingId) == Some(false);
      WalkStopsAtProcessed(fs[1..], processed, k - 1);
      assert fs[..k] == [fs[0]] + fs[1..][..k - 1];
    }
  }

  lemma StopsAtProcessed(fs: seq<Filing>, processed: string -> Option<bool>, k: nat)
    requires k < |fs| && processed(fs[k].filingId) == Some(true)
    requires AllUnseen(fs, processed, k)
    ensures FindNewFilings(fs, processed) == fs[..k]
  {
    WalkStopsAtProcessed(fs, processed, k);
  }

  /** With every filing unseen the walk takes them all. */
  lemma {:induction false} WalkTakesAllUnseen(fs: seq<Filing>, processed: string -> Option<bool>)
    requires AllUnseen(fs, processed, |fs|)
    ensures WalkNew(fs, processed) == Some(Walk(fs, false))
    decreases |fs|
  {
    if |fs| > 0 {
      assert processed(fs[0].filingId) == Some(false);
      WalkTakesAllUnseen(fs[1..], processed);
      assert fs == [fs[0]] + fs[1..];
    }
  }

  /** A fresh database yields the two newest filings, or all if fewer. */
  lemma FreshDatabaseKeepsTwo(fs: seq<Filing>, processed: string -> Option<bool>)
    requires AllUnseen(fs, processed, |fs|)
    ensures FindNewFilings(fs, processed) == fs[..if |fs| < FreshLimit then |fs| else FreshLimit]
  {
    WalkTakesAllUnseen(fs, processed);
  }

  /** A lookup that raises before a processed filing is met yields
      nothing. */
  lemma {:induction false} WalkFailsOnError(fs: seq<Filing>, processed: string -> Option<bool>, k: nat)
    requires k < |fs| && processed(fs[k].filingId).None?
    requires AllUnseen(fs, processed, k)
    ensures WalkNew(fs, processed).None?
    decreases k
  {
    if k > 0 {
      assert processed(fs[0].filingId) == Some(false);
      WalkFailsOnError(fs[1..], processed, k - 1);
    }
  }

  lemma LookupErrorYieldsNothing(fs: seq<Filing>, processed: string -> Option<bool>, k: nat)
    requires k < |fs| && processed(fs[k].filingId).None?
    requires AllUnseen(fs, processed, k)
    ensures FindNewFilings(fs, processed) == []
  {
    WalkFailsOnError(fs, processed, k);
  }
}

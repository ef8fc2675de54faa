/** The pure parts of the House Clerk scrapers (`scraper.py` and
    `multi_politician_scraper.py`): filing identifiers derived from PDF
    links, the name and PTR tests applied to search results, the year scan
    with its early stop, the newest-first ordering, and the projection the
    compatibility wrapper returns. The HTTP requests and HTML parsing are
    not part of the model: the filings a year's search yields are a
    parameter. */
module Scraper {
  import opened Wrappers
  import opened Text
  import opened Politicians

  /** A filing as a search-result row describes it. The fields both
      scrapers write are named; the rest (`office`, `name`, the
      politician's names, `year`) are kept as text under their keys. */
  datatype Filing = Filing(
    filingId: string, pdfUrl: string, filingDate: string, filingType: string,
    isPtr: bool, extra: map<string, string>)

  // ---------------------------------------------------------------------
  // Filing identifiers
  // ---------------------------------------------------------------------

  /** Every character of `s.replace(pat, "")` comes from `s`. */
  lemma {:induction false} RemoveAllKeepsChars(s: string, pat: string)
    requires |pat| > 0
    ensures forall c :: c in RemoveAll(s, pat) ==> c in s
    decreases |s|
  {
    if |s| > 0 {
      if StartsWith(s, pat) {
        RemoveAllKeepsChars(s[|pat|..], pat);
        assert forall c :: c in s[|pat|..] ==> c in s;
      } else {
        RemoveAllKeepsChars(s[1..], pat);
        assert forall c :: c in s[1..] ==> c in s;
        assert RemoveAll(s, pat) == [s[0]] + RemoveAll(s[1..], pat);
      }
    }
  }

  /** A text without the pattern's first character passes through
      `replace` untouched, whatever follows it. */
  lemma {:induction false} RemoveAfterFree(x: string, y: string, pat: string)
    requires |pat| > 0 && pat[0] !in x
    ensures RemoveAll(x + y, pat) == x + RemoveAll(y, pat)
    decreases |x|
  {
    if |x| > 0 {
      var s := x + y;
      assert s[0] == x[0] && s[1..] == x[1..] + y;
      assert !StartsWith(s, pat) by {
        assert s[0] != pat[0];
      }
      assert RemoveAll(s, pat) == [s[0]] + RemoveAll(s[1..], pat);
      RemoveAfterFree(x[1..], y, pat);
      assert x == [x[0]] + x[1..];
    } else {
      assert x + y == y;
    }
  }

  /** The last piece of `a + c + b` split on `c` is `b` when `b` holds no
      `c`. */
  lemma {:induction false} LastPieceAfter(a: string, b: string, c: char)
    requires c !in b
    ensures Last(Split(a + [c] + b, [c])) == b
    decreases |a|
  {
    var s := a + [c] + b;
    assert OccursAt(s, [c], |a|);
    var i := IndexOf(s, [c]).value;
    var rest := s[i + 1..];
    if i < |a| {
      assert rest == a[i + 1..] + [c] + b;
      LastPieceAfter(a[i + 1..], b, c);
    } else {
      assert i == |a| && rest == b;
      assert !Contains(b, [c]) by {
        MissingLetter(b, [c], 0);
      }
      assert Split(rest, [c]) == [b];
    }
  }

  /** `"/" !in s` once `s` holds no "/" as a substring. */
  lemma NoSlashChar(s: string)
    requires !Contains(s, "/")
    ensures '/' !in s
  {
    forall i | 0 <= i < |s|
      ensures s[i] != '/'
    {
      assert s[i] == '/' ==> OccursAt(s, "/", i);
    }
  }

  /** `_generate_filing_id_from_url` of `scraper.py`: the last
      `/`-separated segment with every `.pdf` removed. */
  function FilingIdFromUrl(pdfUrl: string): (id: string)
    ensures '/' !in id
    ensures |id| <= |Last(Split(pdfUrl, "/"))|
  {
    var filename := Last(Split(pdfUrl, "/"));
    LastOfSplitFree(pdfUrl, "/");
    NoSlashChar(filename);
    RemoveAllKeepsChars(filename, ".pdf");
    RemoveAll(filename, ".pdf")
  }

  /** A link to `<name>.pdf` gives `<name>` when the name has no slash and
      no dot. */
  lemma FilingIdOfPdfLink(base: string, name: string)
    requires '/' !in name && '.' !in name
    ensures FilingIdFromUrl(base + "/" + name + ".pdf") == name
  {
    assert base + "/" + name + ".pdf" == base + ['/'] + (name + ".pdf");
    LastPieceAfter(base, name + ".pdf", '/');
    RemoveAfterFree(name, ".pdf", ".pdf");
    assert RemoveAll(".pdf", ".pdf") == "";
  }

  /** `_generate_filing_id` of `scraper.py`, given the URL's path: the last
      segment with `.pdf` and then `.PDF` removed, or `str(hash(url))` when
      nothing is left. */
  function GenerateFilingId(path: string, urlHash: int): (id: string)
    ensures |id| > 0
    ensures RemoveAll(RemoveAll(Last(Split(path, "/")), ".pdf"), ".PDF") != "" ==>
      id == RemoveAll(RemoveAll(Last(Split(path, "/")), ".pdf"), ".PDF")
    ensures RemoveAll(RemoveAll(Last(Split(path, "/")), ".pdf"), ".PDF") == "" ==> id == ShowInt(urlHash)
  {
    var filename := Last(Split(path, "/"));
    var id := RemoveAll(RemoveAll(filename, ".pdf"), ".PDF");
    if id == "" then ShowInt(urlHash) else id
  }

  lemma LowerExtensionGone()
    ensures RemoveAll(".pdf", ".pdf") == ""
  {
    assert StartsWith(".pdf", ".pdf");
  }

  lemma UpperExtensionKept()
    ensures RemoveAll(".PDF", ".pdf") == ".PDF"
    ensures RemoveAll(".PDF", ".PDF") == ""
  {
    MissingLetter(".PDF", ".pdf", 1);
    assert StartsWith(".PDF", ".PDF");
  }

  /** The last segment of `base/<file>` is `<file>` when the file name has
      no slash. */
  lemma LastSegment(base: string, file: string)
    requires '/' !in file
    ensures Last(Split(base + "/" + file, "/")) == file
  {
    assert base + "/" + file == base + ['/'] + file;
    LastPieceAfter(base, file, '/');
  }

  /** What `GenerateFilingId` makes of a path whose last segment is
      `file`. */
  lemma GeneratedIdOfSegment(base: string, file: string, urlHash: int)
    requires '/' !in file
    requires RemoveAll(RemoveAll(file, ".pdf"), ".PDF") != ""
    ensures GenerateFilingId(base + "/" + file, urlHash) == RemoveAll(RemoveAll(file, ".pdf"), ".PDF")
  {
    LastSegment(base, file);
  }

  /** A link to `<name>.pdf` gives `<name>`. */
  lemma GeneratedIdOfLowerLink(base: string, name: string, urlHash: int)
    requires |name| > 0 && '/' !in name && '.' !in name
    ensures GenerateFilingId(base + "/" + name + ".pdf", urlHash) == name
  {
    var file := name + ".pdf";
    assert RemoveAll(file, ".pdf") == name by {
      RemoveAfterFree(name, ".pdf", ".pdf");
      LowerExtensionGone();
    }
    assert RemoveAll(name, ".PDF") == name by {
      RemoveAfterFree(name, "", ".PDF");
      assert name + "" == name;
    }
    assert '/' !in file;
    GeneratedIdOfSegment(base, file, urlHash);
    assert base + "/" + name + ".pdf" == base + "/" + file;
  }

  /** A link to `<name>.PDF` gives `<name>` as well. */
  lemma GeneratedIdOfUpperLink(base: string, name: string, urlHash: int)
    requires |name| > 0 && '/' !in name && '.' !in name
    ensures GenerateFilingId(base + "/" + name + ".PDF", urlHash) == name
  {
    var file := name + ".PDF";
    assert RemoveAll(file, ".pdf") == file by {
      RemoveAfterFree(name, ".PDF", ".pdf");
      UpperExtensionKept();
    }
    assert RemoveAll(file, ".PDF") == name by {
      RemoveAfterFree(name, ".PDF", ".PDF");
      UpperExtensionKept();
    }
    assert '/' !in file;
    GeneratedIdOfSegment(base, file, urlHash);
    assert base + "/" + name + ".PDF" == base + "/" + file;
  }

  /** A path ending in a bare `/.pdf` leaves nothing and falls back to the
      hash. */
  lemma BareExtensionFallsBack(base: string, urlHash: int)
    ensures GenerateFilingId(base + "/.pdf", urlHash) == ShowInt(urlHash)
  {
    assert base + "/.pdf" == base + ['/'] + ".pdf";
    LastPieceAfter(base, ".pdf", '/');
    assert RemoveAll(".pdf", ".pdf") == "";
  }

  // ---------------------------------------------------------------------
  // The identifier of multi_politician_scraper.py
  // ---------------------------------------------------------------------

  /** The start of the longest run of digits that ends `s`. */
  function DigitSuffixStart(s: string): (k: nat)
    ensures k <= |s|
    ensures forall i :: k <= i < |s| ==> IsDigit(s[i])
    ensures k > 0 ==> !IsDigit(s[k - 1])
    decreases |s|
  {
    if |s| > 0 && IsDigit(s[|s| - 1]) then DigitSuffixStart(s[..|s| - 1]) else |s|
  }

  /** The text before the `.pdf` that ends the URL; Python's `$` also
      matches before a final newline. */
  function PdfStem(url: string): Option<string> {
    if EndsWith(url, ".pdf") then Some(url[..|url| - 4])
    else if EndsWith(url, ".pdf\n") then Some(url[..|url| - 5])
    else None
  }

  /** `hexdigest()[:8]`. */
  function Prefix8(hexDigest: string): string {
    if |hexDigest| <= 8 then hexDigest else hexDigest[..8]
  }

  /** `_generate_filing_id_from_url` of `multi_politician_scraper.py`: the
      digits `/(\d+)\.pdf$` captures, else the first eight characters of
      the URL's MD5 digest, given here as `hexDigest`. */
  function MultiFilingId(url: string, hexDigest: string): (id: string)
    ensures id == Prefix8(hexDigest) || (|id| > 0 && AllDigits(id))
  {
    match PdfStem(url)
    case None => Prefix8(hexDigest)
    case Some(stem) =>
      var k := DigitSuffixStart(stem);
      if k < |stem| && k > 0 && stem[k - 1] == '/' then stem[k..] else Prefix8(hexDigest)
  }

  /** A link to `/<digits>.pdf` gives exactly those digits. */
  lemma MultiIdOfDigitLink(base: string, digits: string, hexDigest: string)
    requires |digits| > 0 && AllDigits(digits)
    ensures MultiFilingId(base + "/" + digits + ".pdf", hexDigest) == digits
  {
    var url := base + "/" + digits + ".pdf";
    assert EndsWith(url, ".pdf");
    var stem := url[..|url| - 4];
    assert stem == base + "/" + digits;
    DigitSuffixOfSlashDigits(base, digits);
  }

  /** The digit run ending `p + d` is `d` when `p` does not end in a
      digit. */
  lemma {:induction false} DigitSuffixAfter(p: string, d: string)
    requires AllDigits(d)
    requires |p| > 0 ==> !IsDigit(p[|p| - 1])
    ensures DigitSuffixStart(p + d) == |p|
    decreases |d|
  {
    var s := p + d;
    if |d| == 0 {
      assert s == p;
    } else {
      assert IsDigit(s[|s| - 1]) by {
        assert s[|s| - 1] == d[|d| - 1];
      }
      assert s[..|s| - 1] == p + d[..|d| - 1];
      DigitSuffixAfter(p, d[..|d| - 1]);
    }
  }

  lemma DigitSuffixOfSlashDigits(base: string, digits: string)
    requires AllDigits(digits)
    ensures DigitSuffixStart(base + "/" + digits) == |base| + 1
  {
    DigitSuffixAfter(base + "/", digits);
  }

  /** A URL that does not end in `.pdf` (before an optional final newline)
      falls back to the digest. */
  lemma MultiIdFallsBack(url: string, hexDigest: string)
    requires !EndsWith(url, ".pdf") && !EndsWith(url, ".pdf\n")
    ensures MultiFilingId(url, hexDigest) == Prefix8(hexDigest)
  {
  }

  /** A file name that is not all digits falls back to the digest too. */
  lemma MultiIdNeedsDigits(base: string, name: string, hexDigest: string)
    requires |name| > 0 && !IsDigit(name[|name| - 1])
    ensures MultiFilingId(base + "/" + name + ".pdf", hexDigest) == Prefix8(hexDigest)
  {
    var url := base + "/" + name + ".pdf";
    assert EndsWith(url, ".pdf");
    var stem := url[..|url| - 4];
    assert stem == base + "/" + name;
    assert stem[|stem| - 1] == name[|name| - 1];
  }

  // ---------------------------------------------------------------------
  // Name matching, PTR detection, last names
  // ---------------------------------------------------------------------

  const PelosiVariations: seq<string> :=
    ["pelosi", "nancy", "nancy pelosi", "pelosi, nancy", "pelosi, nancy p", "nancy p. pelosi"]

  /** `_is_pelosi_name`: some variation occurs in the lower-cased name.
      Every variation holds "pelosi" or "nancy", so the list is the same
      test as looking for either word. */
  function IsPelosiName(name: string): (r: bool)
    ensures r <==> Contains(Lower(name), "pelosi") || Contains(Lower(name), "nancy")
  {
    VariationsHoldAName(Lower(name));
    AnyIn(Lower(name), PelosiVariations)
  }

  lemma VariationsHoldAName(low: string)
    ensures ContainsAny(low, PelosiVariations) <==> Contains(low, "pelosi") || Contains(low, "nancy")
  {
    assert PelosiVariations[0] == "pelosi" && PelosiVariations[1] == "nancy";
    forall k | 2 <= k < |PelosiVariations| && Contains(low, PelosiVariations[k])
      ensures Contains(low, "pelosi")
    {
      var v := PelosiVariations[k];
      var at: nat := if k == 2 then 6 else if k == 5 then 9 else 0;
      assert OccursAt(v, "pelosi", at);
      ContainsTransitive(low, v, "pelosi");
    }
  }

  /** `_is_pelosi_filing`: the link text or the name passes the name test,
      a missing entry counting as empty; so a filing is Pelosi's exactly
      when "pelosi" or "nancy" occurs, in any case, in either. */
  function IsPelosiFiling(linkText: Option<string>, name: Option<string>): (r: bool)
    ensures r <==>
      || Contains(Lower(linkText.GetOr("")), "pelosi") || Contains(Lower(linkText.GetOr("")), "nancy")
      || Contains(Lower(name.GetOr("")), "pelosi") || Contains(Lower(name.GetOr("")), "nancy")
  {
    IsPelosiName(linkText.GetOr("")) || IsPelosiName(name.GetOr(""))
  }

  /** With neither entry the filing is never Pelosi's. */
  lemma NoEntriesNoMatch()
    ensures !IsPelosiFiling(None, None)
  {
  }

  /** `is_ptr`: "PTR" occurs in the upper-cased filing type. */
  function IsPtr(filingType: string): (r: bool)
    ensures r <==> exists i :: 0 <= i && i + 3 <= |filingType| && PtrLettersAt(filingType, i)
  {
    var u := Upper(filingType);
    assert Contains(u, "PTR") ==> exists i :: 0 <= i && i + 3 <= |filingType| && PtrLettersAt(filingType, i) by {
      if Contains(u, "PTR") {
        var i :| 0 <= i <= |u| - 3 && OccursAt(u, "PTR", i);
        assert u[i..i + 3][0] == u[i] && u[i..i + 3][1] == u[i + 1] && u[i..i + 3][2] == u[i + 2];
        assert PtrLettersAt(filingType, i);
      }
    }
    assert (exists i :: 0 <= i && i + 3 <= |filingType| && PtrLettersAt(filingType, i)) ==> Contains(u, "PTR") by {
      if exists i :: 0 <= i && i + 3 <= |filingType| && PtrLettersAt(filingType, i) {
        var i :| 0 <= i && i + 3 <= |filingType| && PtrLettersAt(filingType, i);
        assert u[i..i + 3] == "PTR";
        assert OccursAt(u, "PTR", i);
      }
    }
    Contains(u, "PTR")
  }

  /** The letters P, T, R, in either case, start at `i`. */
  predicate PtrLettersAt(t: string, i: nat)
    requires i + 3 <= |t|
  {
    ToUpperChar(t[i]) == 'P' && ToUpperChar(t[i + 1]) == 'T' && ToUpperChar(t[i + 2]) == 'R'
  }

  /** The test ignores case. */
  lemma PtrIgnoresCase(filingType: string)
    ensures IsPtr(Lower(filingType)) == IsPtr(filingType)
    ensures IsPtr(Upper(filingType)) == IsPtr(filingType)
  {
    UpperIdempotent(filingType);
    forall i | 0 <= i < |filingType|
      ensures Upper(Lower(filingType))[i] == Upper(filingType)[i]
    {
      var c := filingType[i];
      assert IsUpper(c) ==> ToUpperChar(ToLowerChar(c)) == c;
    }
    assert Upper(Lower(filingType)) == Upper(filingType);
  }

  /** A type naming a periodic transaction report in lower case is a PTR. */
  lemma LowerCasePtr(filingType: string)
    requires Contains(filingType, "ptr")
    ensures IsPtr(filingType)
  {
    var i :| 0 <= i <= |filingType| - 3 && OccursAt(filingType, "ptr", i);
    var w := filingType[i..i + 3];
    assert w == "ptr";
    assert filingType[i] == w[0] && filingType[i + 1] == w[1] && filingType[i + 2] == w[2];
    assert PtrLettersAt(filingType, i);
  }

  /** The last name the multi-politician search sends: the text before the
      first comma of the search name, stripped. */
  function LastName(searchName: string): (r: string)
    ensures !Contains(r, ",")
  {
    var first := FirstPiece(searchName, ",");
    var r := Strip(first);
    assert !Contains(r, ",") by {
      if Contains(r, ",") {
        ContainsTransitive(first, r, ",");
      }
    }
    r
  }

  /** "Last, First" gives "Last", stripped. */
  lemma LastNameOf(last: string, first: string)
    requires ',' !in last
    ensures LastName(last + "," + first) == Strip(last)
  {
    var s := last + "," + first;
    assert s[..|last|] == last;
    assert OccursAt(s, ",", |last|) by {
      assert s[|last|..|last| + 1] == ",";
    }
    forall j | 0 <= j < |last|
      ensures !OccursAt(s, ",", j)
    {
      assert s[j] == last[j];
    }
    FirstPieceAt(s, ",", |last|);
  }

  // ---------------------------------------------------------------------
  // The year scan
  // ---------------------------------------------------------------------

  const FirstYear: int := 2025
  const LastYear: int := 2020
  const EnoughFilings: nat := 20

  /** The filings of the years `FirstYear` down to `year`, in that order;
      nothing for `year == FirstYear + 1`. */
  function Gathered(fetch: int -> seq<Filing>, year: int): seq<Filing>
    requires LastYear <= year <= FirstYear + 1
    decreases FirstYear + 1 - year
  {
    if year == FirstYear + 1 then [] else Gathered(fetch, year + 1) + fetch(year)
  }

  /** The loop of `search_pelosi_filings`: the year's filings are added,
      and the scan stops once more than twenty are held. */
  function ScanFrom(fetch: int -> seq<Filing>, year: int, acc: seq<Filing>): seq<Filing>
    requires LastYear - 1 <= year <= FirstYear
    decreases year
  {
    if year < LastYear then acc
    else
      var acc' := acc + fetch(year);
      if |acc'| > EnoughFilings then acc' else ScanFrom(fetch, year - 1, acc')
  }

  /** `search_pelosi_filings`: the years from `FirstYear` down to where the
      scan stops, their filings in that order. */
  function ScanYears(fetch: int -> seq<Filing>): (r: seq<Filing>)
    ensures exists stop :: StopsAt(fetch, stop, FirstYear + 1) && r == Gathered(fetch, stop)
  {
    ScanFromPolicy(fetch, FirstYear, []);
    ScanFrom(fetch, FirstYear, [])
  }

  /** The scan ends at `stop` having looked at the years down to `top`:
      `stop` is the last year or the first at which more than twenty
      filings are held, and at every year before it twenty or fewer were. */
  predicate StopsAt(fetch: int -> seq<Filing>, stop: int, top: int)
    requires top <= FirstYear + 1
  {
    && LastYear <= stop <= top
    && (stop == LastYear || |Gathered(fetch, stop)| > EnoughFilings)
    && (forall y :: stop < y <= top ==> |Gathered(fetch, y)| <= EnoughFilings)
  }

  lemma {:induction false} ScanFromPolicy(fetch: int -> seq<Filing>, year: int, acc: seq<Filing>)
    requires LastYear - 1 <= year <= FirstYear
    requires acc == Gathered(fetch, year + 1) && |acc| <= EnoughFilings
    ensures exists stop :: StopsAt(fetch, stop, year + 1) && ScanFrom(fetch, year, acc) == Gathered(fetch, stop)
    decreases year
  {
    if year < LastYear {
      assert StopsAt(fetch, LastYear, year + 1);
      assert ScanFrom(fetch, year, acc) == Gathered(fetch, LastYear);
    } else {
      var acc' := acc + fetch(year);
      assert acc' == Gathered(fetch, year);
      if |acc'| > EnoughFilings {
        assert StopsAt(fetch, year, year + 1);
        assert ScanFrom(fetch, year, acc) == Gathered(fetch, year);
      } else {
        ScanFromPolicy(fetch, year - 1, acc');
        var stop :| StopsAt(fetch, stop, year) && ScanFrom(fetch, year - 1, acc') == Gathered(fetch, stop);
        assert StopsAt(fetch, stop, year + 1);
      }
    }
  }

  // ---------------------------------------------------------------------
  // Newest first
  // ---------------------------------------------------------------------

  /** `int(filing_id)`, `None` where it raises. */
  function Key(f: Filing): Option<int> {
    ParseInt(f.filingId)
  }

  predicate Keyed(fs: seq<Filing>) {
    forall i :: 0 <= i < |fs| ==> Key(fs[i]).Some?
  }

  /** The integer value of an identifier that parses. */
  function IdValue(f: Filing): int {
    Key(f).GetOr(0)
  }

  /** Keys never increase along the list. */
  predicate Descending<T>(xs: seq<T>, key: T -> int) {
    forall i, j :: 0 <= i < j < |xs| ==> key(xs[i]) >= key(xs[j])
  }

  /** `x` placed before the first element whose key is not larger, so that
      equal keys keep their order as in Python's stable `sort`. */
  function Insert<T>(x: T, xs: seq<T>, key: T -> int): (r: seq<T>)
    requires Descending(xs, key)
    ensures Descending(r, key)
    ensures multiset(r) == multiset(xs) + multiset{x}
    decreases |xs|
  {
    if |xs| == 0 || key(xs[0]) <= key(x) then [x] + xs
    else
      var rest := Insert(x, xs[1..], key);
      assert xs == [xs[0]] + xs[1..];
      BoundedByHead(xs[0], xs[1..], x, rest, key);
      [xs[0]] + rest
  }

  lemma BoundedByHead<T>(h: T, tail: seq<T>, x: T, rest: seq<T>, key: T -> int)
    requires key(x) < key(h)
    requires forall i :: 0 <= i < |tail| ==> key(tail[i]) <= key(h)
    requires multiset(rest) == multiset(tail) + multiset{x}
    requires Descending(rest, key)
    ensures Descending([h] + rest, key)
  {
    var r := [h] + rest;
    forall k | 0 <= k < |rest|
      ensures key(rest[k]) <= key(h)
    {
      assert rest[k] in multiset(rest);
      if rest[k] != x {
        assert rest[k] in multiset(tail);
        var i :| 0 <= i < |tail| && tail[i] == rest[k];
      }
    }
    assert forall k :: 1 <= k < |r| ==> r[k] == rest[k - 1];
  }

  /** Insertion sort, largest key first: `sort(key=..., reverse=True)`. */
  function Sort<T>(xs: seq<T>, key: T -> int): (r: seq<T>)
    ensures Descending(r, key)
    ensures multiset(r) == multiset(xs)
    decreases |xs|
  {
    if |xs| == 0 then []
    else
      assert xs == [xs[0]] + xs[1..];
      Insert(xs[0], Sort(xs[1..], key), key)
  }

  /** `search_pelosi_filings` (and `search_politician_filings`): the scanned
      filings newest first, or nothing when an identifier is not an
      integer, which raises inside the `try`. */
  function SearchFilings(fetch: int -> seq<Filing>): (r: seq<Filing>)
    ensures Keyed(ScanYears(fetch)) ==> Descending(r, IdValue) && multiset(r) == multiset(ScanYears(fetch))
    ensures !Keyed(ScanYears(fetch)) ==> r == []
  {
    var scanned := ScanYears(fetch);
    if Keyed(scanned) then Sort(scanned, IdValue) else []
  }

  /** `search_politician_filings` of `multi_politician_scraper.py`: the
      same scan and order, over the searches made for one politician. */
  function SearchPoliticianFilings(p: Config, fetch: (Config, int) -> seq<Filing>): (r: seq<Filing>)
    ensures Keyed(ScanYears(y => fetch(p, y))) ==>
      Descending(r, IdValue) && multiset(r) == multiset(ScanYears(y => fetch(p, y)))
    ensures !Keyed(ScanYears(y => fetch(p, y))) ==> r == []
  {
    SearchFilings(y => fetch(p, y))
  }

  // ---------------------------------------------------------------------
  // The compatibility wrapper
  // ---------------------------------------------------------------------

  /** A filing in the old format: four fields. */
  datatype OldFiling = OldFiling(filingId: string, filingType: string, filingDate: string, pdfUrl: string)

  function Project(fs: seq<Filing>): (olds: seq<OldFiling>)
    ensures |olds| == |fs|
    ensures forall i :: 0 <= i < |fs| ==>
      olds[i] == OldFiling(fs[i].filingId, fs[i].filingType, fs[i].filingDate, fs[i].pdfUrl)
  {
    seq(|fs|, i requires 0 <= i < |fs| => OldFiling(fs[i].filingId, fs[i].filingType, fs[i].filingDate, fs[i].pdfUrl))
  }

  /** `HouseClerkScraper.search_pelosi_filings` of the multi-politician
      module: nothing without a "pelosi" entry, else that politician's
      filings in the old format, same order and count. */
  function CompatSearch(r: Registry, fetch: (Config, int) -> seq<Filing>): (olds: seq<OldFiling>)
    requires Valid(r)
    ensures Get(r, "pelosi").None? ==> olds == []
    ensures Get(r, "pelosi").Some? ==>
      olds == Project(SearchPoliticianFilings(Get(r, "pelosi").value, fetch))
  {
    match Get(r, "pelosi")
    case None => []
    case Some(p) => Project(SearchPoliticianFilings(p, fetch))
  }

  /** The old format keeps identifiers, hence the newest-first order. */
  lemma ProjectionKeepsOrder(fs: seq<Filing>, i: nat, j: nat)
    requires Descending(fs, IdValue) && i < j < |fs|
    ensures ParseInt(Project(fs)[i].filingId).GetOr(0) >= ParseInt(Project(fs)[j].filingId).GetOr(0)
  {
    assert IdValue(fs[i]) >= IdValue(fs[j]);
  }
}

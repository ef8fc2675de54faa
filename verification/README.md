# Congressional trade tracker — a Dafny model of its core

The tracker reads the Periodic Transaction Reports (PTRs) that members of the
House file with the Clerk. It extracts the individual trades from each
report's text and posts them to Discord. This project models the pure logic
of that pipeline and proves properties of the model:

- **the PTR trade-extraction engine** of `pdf_parser.py`: from the lines of a
  report's text to an ordered list of trade records. It covers:
  - the line classifier;
  - the three structural grammars (ticker on the same line, ticker on the next
    line with an optional `(partial)` marker, no ticker), each completing a
    dangling amount range from the next line;
  - the five-line trade-type window and the `D:` description block;
  - the keyword fallback: action words, the asset/ticker heuristic, the
    amount cascade, the ±2-line date window and the ten-line filing-date
    header;
  - the display formatting of a record;
- **the Discord notifier's pure parts** (`discord_notifier.py`): the webhook
  URL check, the amount compaction (`$1,001 - $15,000` → `$1K-$15K`), the
  colour and field selection of a single-trade embed, the five-line bulk
  embed, and the count dispatch of a bulk send;
- **the politician registry** (`politicians_config.py`): the status enum, the
  dictionary round trip, and add, remove, get, active filter, search-name
  lookup, update and the default configuration. The registry is kept in
  insertion order, as a Python `dict` is;
- **the scrapers' pure parts** (`scraper.py`, `multi_politician_scraper.py`):
  - filing identifiers derived from PDF links;
  - the Pelosi name test and the PTR test;
  - the 2025→2020 year scan that stops past twenty filings, and the
    newest-first sort;
  - the last name sent to the search, and the compatibility projection;
- **the new-filing selection** of `pelosi_tracker.py`: the filings before the
  first one already processed, at most two on a fresh database.

Regular expressions are modelled as deterministic capture functions. Each
returns what Python's `re.search` returns for that pattern: the leftmost
start, lazy quantifiers taking the shortest asset, `\b` as a word boundary.
Where the pattern leaves the match open, the search is a recursion over
positions. Round-trip lemmas show that a line printed from its groups is read
back to the same groups.

Files:

| file | module |
|---|---|
| `wrappers.dfy` | `Option`, `Result` |
| `text.dfy` | Python string operations: `upper`, `lower`, `strip`, `in`, `find`, `split`, `join`, `replace`, `str(int)`, `int(str)` |
| `patterns.dfy`, `pattern_laws.dfy` | the regular expressions of `pdf_parser.py` and their laws |
| `classifier.dfy` | `_is_trade_line` |
| `context.dfy` | trade type and description |
| `heuristics.dfy` | the keyword-fallback helpers |
| `extractor.dfy` | `_parse_ptr_trade_line`, `_parse_trade_line`, `format_trade_for_display` |
| `engine.dfy` | `_parse_text_for_trades` |
| `notifier.dfy` | `discord_notifier.py` |
| `politicians.dfy` | `politicians_config.py` |
| `scraper.dfy` | `scraper.py`, `multi_politician_scraper.py` |
| `tracker.dfy` | `_find_new_filings` |

The line `"SP ACME CORP P 01/02/2024 01/10/2024 $15,001 -"` followed by
`"[OT] $50,000"` gives no record at all. Patterns 2 and 3 match the asset with
`[A-Z][^P]*?`, so their asset cannot hold a `P` after its first letter. The
`P` of `CORP` therefore stops every candidate asset before the action code
(`Patterns.MatchPartialForm`, `Patterns.MatchPlainForm`). The line names no
action keyword either, so the keyword fallback does not take it. For an
asset without a `P` the dangling amount is completed from the next line, here
to `"$15,001 - $50,000"` (`Extractor.NoTickerRecordRoundTrip`).

## Model

| member | source | states |
|---|---|---|
| Patterns.MatchTickerForm | pdf_parser.py:154-156 | pattern 1: a match has a 1–5 capital ticker, code P or S, two MM/DD/YYYY dates and a `$`-amount |
| Patterns.MatchPartialForm | pdf_parser.py:195-197 | pattern 2: a match has no ticker, code P or S, dates and amount, and an asset with no `P` after its first letter |
| Patterns.MatchPlainForm | pdf_parser.py:242-244 | pattern 3: as pattern 2, without the `(partial)` marker |
| Patterns.FirstDollar | pdf_parser.py:164 | `(\$[\d,]+)`: the leftmost `$` followed by a digit or comma, taken with its whole run of digits and commas; none exactly when there is no such `$` |
| Patterns.FirstTicker | pdf_parser.py:203 | `\(([A-Z]{1,5})\)`: the leftmost parenthesised 1–5 capital symbol, none when there is none |
| Patterns.FirstDate | pdf_parser.py:440 | `\b(\d{1,2}/\d{1,2}/\d{4})\b`: the date at the leftmost position where one starts and ends at word boundaries, as it occurs in the text; none iff there is no such position |
| Patterns.FirstCapitalPhrase | pdf_parser.py:400 | `\b[A-Z]{2,}(?:\s+[A-Z]{2,})*\b`: the phrase at the leftmost position where one matches, taken to its longest match; none iff no position matches |
| Patterns.DateEndLocal | pdf_parser.py:154 | the date piece matches at a position exactly when the text there is a date |
| Patterns.DatesAndAmountShape | pdf_parser.py:154 | the date and amount groups have the shapes their sub-patterns demand |
| Patterns.AmountEndShape | pdf_parser.py:154 | the amount group is `$`, digits and commas, then an optional trailing dash |
| PatternLaws.TickerFormRoundTrip | pdf_parser.py:154-156 | a pattern-1 line printed from its groups is read back to exactly those groups |
| PatternLaws.PartialFormRoundTrip | pdf_parser.py:195-197 | a pattern-2 line, with or without `(partial)`, is read back to its groups |
| PatternLaws.PlainFormRoundTrip | pdf_parser.py:242-244 | a pattern-3 line is read back to its groups |
| PatternLaws.DateAt | pdf_parser.py:154 | a date placed in a line is consumed whole by the date piece |
| PatternLaws.AmountAtEnd | pdf_parser.py:154 | an amount ending the line is consumed up to the end of the line |
| Classifier.IsTradeLine | pdf_parser.py:66-100 | a line is a trade line iff one structural shape matches or the keyword rule (action word, asset word, no header word, all upper-cased) holds |
| Classifier.KeywordRuleIgnoresCase | pdf_parser.py:86-100 | the keyword rule gives the same answer on the upper-cased line |
| Classifier.HeaderVeto | pdf_parser.py:96-100 | a line holding a header word is a trade line only through a structural shape |
| Classifier.TotalBuyVetoed | pdf_parser.py:93-100 | "TOTAL BUY ACME INC" has an action and an asset word, yet the keyword rule rejects it |
| Classifier.BuyLineAccepted | pdf_parser.py:86-100 | a plain "Buy Apple Inc" passes the keyword rule |
| Context.KindFromText | pdf_parser.py:352-366 | stock iff no option word occurs; put iff PUT occurs and CALL does not; otherwise call |
| Context.KindWindow | pdf_parser.py:333-336 | the window is lines `i .. min(i+5, len)-1`, in order |
| Context.KindAt | pdf_parser.py:328-350 | an empty document gives a stock |
| Context.KindIsLocal | pdf_parser.py:333-338 | two documents whose five-line windows agree give the same type |
| Context.ComputerReadsAsPut | pdf_parser.py:341-345 | the tests are substring tests: "Computer" reads as a put |
| Context.StrikeAloneIsCall | pdf_parser.py:341-347 | an option word other than CALL or PUT defaults to a call |
| Context.CleanLine | pdf_parser.py:300-303 | a cleaned line holds no NUL and no outer whitespace; a line without NUL is only stripped |
| Context.ScanWindow | pdf_parser.py:300 | the description scan reads at most nine lines |
| Context.NoMarkerNoDescription | pdf_parser.py:291-326 | without a `D:` line the description is empty |
| Context.NextTradeFirstAborts | pdf_parser.py:322-324 | an `SP ` line met before any `D:` line ends the scan with nothing |
| Context.StartsAtFirstMarker | pdf_parser.py:306-311 | the description starts at the first `D:` line with its marker removed |
| Context.CollectsUntilSection | pdf_parser.py:313-320 | after a `D:` line every line is kept, in order, `D:` lines without their marker, up to the first `SP ` or `L:` line or the end of the window |
| Context.PartsFromFirstMarker | pdf_parser.py:299-324 | the parts are those of the lines from the first `D:` line up to the first `SP ` or `L:` line after it |
| Context.Description | pdf_parser.py:290-326 | empty when no cleaned line of the window starts with `D:` |
| Context.DescriptionContents | pdf_parser.py:290-326 | the description is those parts joined by single spaces |
| Context.DescriptionIsLocal | pdf_parser.py:300 | only lines `i+1 .. min(i+10, len)-1` are read |
| Heuristics.ExtractAction | pdf_parser.py:368-377 | buy iff a buy word occurs; sell iff no buy word and a sell word occur; none otherwise |
| Heuristics.BuyWordsFirst | pdf_parser.py:372-375 | a line naming both a purchase and a sale reads as a buy |
| Heuristics.ExtractAssetAndType | pdf_parser.py:379-408 | an option line (CALL or PUT) with a ticker gives the option reading of its first ticker; otherwise the asset is the first capital phrase, a stock, with the first ticker if any; none iff neither applies |
| Heuristics.OptionReading | pdf_parser.py:386-396 | the asset comes from the text before the ticker; put iff CALL is absent |
| Heuristics.AmountRange | pdf_parser.py:410-435 | "Unknown" iff no `$` is followed by a digit or comma |
| Heuristics.LaterAmountPatternsUnreachable | pdf_parser.py:420-433 | whenever the Over, Under or "to" pattern could match, the first pattern already has |
| Heuristics.CompactRangeRead | pdf_parser.py:412-418 | `$1,001-$15,000` is read whole |
| Heuristics.FirstDateIn | pdf_parser.py:445-449 | the date of the first line of the range holding a whole-word date; none iff no line does |
| Heuristics.TransactionDate | pdf_parser.py:437-451 | the line's own date first; otherwise the date of the first line of `[max(0,i-2), min(len,i+3))` holding one; "Unknown" iff none does |
| Heuristics.FilingDate | pdf_parser.py:453-461 | the date of the first of the first ten lines that names the filing date and holds a date; "Unknown" iff there is no such line |
| Heuristics.FilingDateIgnoresBody | pdf_parser.py:455 | lines below the first ten never change the filing date |
| Extractor.ActionOfCode | pdf_parser.py:169 | buy iff the code is P in either case; every other code is a sell |
| Extractor.CompleteDangling | pdf_parser.py:160-166 | the trimmed amount is extended iff it ends in `-`, a next line exists and holds a `$`-token; then by a space and that token |
| Extractor.AppendDollar | pdf_parser.py:208-214 | the amount is extended iff the next line holds a `$`-token; then by a space and that token |
| Extractor.CompletenessTestNeverFires | pdf_parser.py:248-251 | a captured amount never contains `' - '` or `' -$'` |
| Extractor.NoTickerAlwaysAppends | pdf_parser.py:248-260 | pattern 3 therefore always takes the append branch |
| Extractor.PtrRecord | pdf_parser.py:168-189 | the record holds the trimmed groups, the type from the window, buy iff code P, and a description only for options |
| Extractor.StructuralReading | pdf_parser.py:154-245 | pattern 1 first; pattern 2 only with a next line holding a ticker; pattern 3 only with a next line; none iff all three fail |
| Extractor.ParsePtrTradeLine | pdf_parser.py:150-289 | a record iff a structural reading exists; its ticker is a symbol or "N/A"; its amount starts with `$`; stock records have no description |
| Extractor.ReadingRecord | pdf_parser.py:179-283 | the record of any reading has a symbol or "N/A", a `$`-amount, and a description only for options |
| Extractor.RecordOfReading | pdf_parser.py:179-283 | per grammar: the ticker is the captured, next-line or "N/A" ticker, with the matching amount completion |
| Extractor.AmountIsTrimmed | pdf_parser.py:161 | a captured amount is its own `strip()` |
| Extractor.KeywordRecord | pdf_parser.py:110-144 | a fallback record iff an action and an asset longer than two characters are found; its dates are dates or "Unknown" |
| Extractor.ParseTradeLine | pdf_parser.py:102-148 | the structural record when a structural reading exists; otherwise exactly the keyword fallback record |
| Extractor.SameLineRecordRoundTrip | pdf_parser.py:154-189 | a pattern-1 line printed from its groups yields a record holding exactly those groups |
| Extractor.SameLineRecordOf | pdf_parser.py:156-189 | a pattern-1 match with trimmed groups yields a record holding them |
| Extractor.NextLineRecordRoundTrip | pdf_parser.py:195-237 | a pattern-2 line and a ticker line yield that ticker and the completed amount |
| Extractor.NextLineRecordOf | pdf_parser.py:197-237 | a pattern-2 match with a ticker on the next line yields a record holding its groups |
| Extractor.NoTickerRecordRoundTrip | pdf_parser.py:242-283 | a pattern-3 line without a ticker line yields "N/A" and the completed amount |
| Extractor.NoTickerRecordOf | pdf_parser.py:244-283 | a pattern-3 match without a next-line ticker yields "N/A" and its groups |
| Extractor.DateIsTrimmed | pdf_parser.py:185-186 | a captured date is its own `strip()` |
| Extractor.CapturedTextIsTrimmed | pdf_parser.py:180-186 | groups without outer whitespace survive `strip()` unchanged |
| Extractor.FormatTradeForDisplay | pdf_parser.py:463-469 | action, upper-cased type and asset, then the ticker part, then amount and transaction date, joined by ` - ` |
| Extractor.TickerInfo | pdf_parser.py:465 | ` (TICKER)` exactly when the record carries a non-empty ticker, empty otherwise |
| Engine.Contributions | pdf_parser.py:57-62 | one optional record per line, in line order |
| Engine.CollectProvenance | pdf_parser.py:54-64 | collecting keeps every present record, in order, each traced to its line |
| Engine.Provenance | pdf_parser.py:52-64 | every output record comes from a distinct trade line, in increasing line order, and every line that yields a record contributes it |
| Engine.Lines | pdf_parser.py:55 | `text.split('\n')` is never empty and joins back to the text |
| Engine.ParseTextForTrades | pdf_parser.py:52-64 | the loop returns the records of all lines, at most one per line |
| Engine.EmptyInputNoTrades | pdf_parser.py:52-64 | empty text gives no trades |
| Notifier.NewNotifier | discord_notifier.py:12-19 | construction succeeds iff the URL starts with `https://discord.com/api/webhooks/` |
| Notifier.PlainHttpRefused | discord_notifier.py:18-19 | an `http://` webhook is refused |
| Notifier.RangeParts | discord_notifier.py:240-245 | split on `' - '` whenever it occurs, else on `'-'`; no parts iff there is no dash |
| Notifier.ScaleAmount | discord_notifier.py:252-258 | an `M` suffix iff at least a million; a `K` suffix iff at least a thousand and below a million |
| Notifier.ScaleTruncates | discord_notifier.py:252-258 | reading the scaled text back gives the value rounded down to its unit |
| Notifier.MillionsReadBack | discord_notifier.py:253-254 | a bound of a million or more reads back as itself rounded down to whole millions |
| Notifier.ThousandsReadBack | discord_notifier.py:255-256 | a bound from a thousand up to a million reads back rounded down to whole thousands |
| Notifier.PlainReadBack | discord_notifier.py:257-258 | below a thousand the value reads back unchanged |
| Notifier.FormatAmountRange | discord_notifier.py:233-264 | unchanged when there is no dash, the pieces are not two, or a piece is not an integer; `$lo-$hi` with both bounds compacted when both are |
| Notifier.CommasRemoved | discord_notifier.py:237 | removing commas from a comma-grouped number gives its plain digits |
| Notifier.DollarsRemoved | discord_notifier.py:237 | removing `$` from a printed range leaves the two grouped numbers |
| Notifier.SeparatorsRemoved | discord_notifier.py:237 | removing commas around the spaced dash works on each side |
| Notifier.CleansPrintedRange | discord_notifier.py:237 | cleaning `$lo - $hi` gives the plain `lo - hi` |
| Notifier.SplitSpacedDash | discord_notifier.py:240-241 | two dash-free numbers split on `' - '` back into the two |
| Notifier.SplitsPlainRange | discord_notifier.py:240-241 | a plain range splits into exactly its two numbers |
| Notifier.SpacedDashPreferred | discord_notifier.py:240-243 | pieces without `' - '` are split apart at the spaced dash even when they hold hyphens of their own |
| Notifier.HyphenKeptInPiece | discord_notifier.py:240-243 | `1-2 - 3` splits into `1-2` and `3` |
| Notifier.CompactsPrintedRange | discord_notifier.py:233-260 | any printed `$lo - $hi` compacts to `$<scaled lo>-$<scaled hi>` |
| Notifier.SmallestBandCompacts | discord_notifier.py:233-260 | `$1,001 - $15,000` compacts to `$1K-$15K` |
| Notifier.EmbedColour | discord_notifier.py:70-89 | purple iff an option type; else green iff the upper-cased action is BUY, orange iff SELL, blue otherwise |
| Notifier.ColourIgnoresCase | discord_notifier.py:70 | the colour is the same for the upper-cased action |
| Notifier.BaseFields | discord_notifier.py:95-126 | six inline fields Stock, Type, Action, Amount, Date, PDF, in that order |
| Notifier.TradeFields | discord_notifier.py:95-134 | the six base fields, plus a seventh non-inline Option Details field exactly when the description is non-empty on an option |
| Notifier.OptionDetailsIff | discord_notifier.py:129-134 | an Option Details field appears iff the description is non-empty and the type is option_call or option_put |
| Notifier.AmountAndStockFields | discord_notifier.py:92-115 | the Amount field holds the compacted range; the Stock field holds asset and ticker suffix |
| Notifier.TradeEmbed | discord_notifier.py:140-143 | the embed carries the selected colour and the trade's fields |
| Notifier.BulkLine | discord_notifier.py:166-167 | each listed trade is one line ending in a newline |
| Notifier.BulkListing | discord_notifier.py:165-167 | the first `min(5, n)` trades are listed, numbered from 1 |
| Notifier.BulkDescription | discord_notifier.py:162 | the description opens with the trade count header |
| Notifier.ListingSeesFirstFive | discord_notifier.py:165 | two batches agreeing on their first five trades list the same lines |
| Notifier.BulkAccountsForAll | discord_notifier.py:165-170 | listed plus "more" count equals the batch size; the note appears iff there are more than five |
| Notifier.MoreNoteIff | discord_notifier.py:169-170 | the description ends with "… more trades" iff more than five trades |
| Notifier.BulkEmbed | discord_notifier.py:172-182 | orange 0xff9900, the bulk description, one non-inline PDF field |
| Notifier.BulkDispatch | discord_notifier.py:40-48 | nothing for an empty batch, the single-trade embed for one, the bulk embed for more |
| Notifier.SendBulkTradeNotification | discord_notifier.py:34-52 | an empty batch succeeds without sending; otherwise the outcome is the delivery of the dispatched embed |
| Notifier.SingleBatchIsSingle | discord_notifier.py:43-44 | a one-trade batch is sent exactly as a single trade |
| Politicians.StatusFromValue | politicians_config.py:13-17 | succeeds iff the value is active, inactive or testing, giving the status with that value |
| Politicians.StatusRoundTrip | politicians_config.py:13-17 | a status read back from its value is itself |
| Politicians.StatusValueInjective | politicians_config.py:13-17 | distinct statuses have distinct values |
| Politicians.TextField | politicians_config.py:20-31 | a field is found iff it is one of the nine text fields |
| Politicians.ToDict | politicians_config.py:33-37 | exactly the ten field keys; the status as its value; every text field as stored |
| Politicians.FromDict | politicians_config.py:39-43 | succeeds iff a valid status is given, the five required fields are present and no key is unknown; the fields are those given |
| Politicians.DictRoundTrip | politicians_config.py:33-43 | `from_dict(to_dict(c))` restores `c`, status included |
| Politicians.UnknownStatusRefused | politicians_config.py:42 | an unknown status value is refused |
| Politicians.Keys | politicians_config.py:122-124 | the names in insertion order |
| Politicians.Get | politicians_config.py:106-108 | none iff no entry has the name; otherwise the entry's configuration |
| Politicians.GetFinds | politicians_config.py:106-108 | every stored entry is found under its name |
| Politicians.Add | politicians_config.py:93-96 | the config is stored under its name, replacing any previous one in place; other names are unchanged |
| Politicians.Remove | politicians_config.py:98-104 | true iff the name was present; afterwards it is absent, all others are unchanged, and the remaining names keep their order with the removed one cut out |
| Politicians.ActiveOfInOrder | politicians_config.py:112-113 | the filter picks the active configurations left to right, each once |
| Politicians.GetActive | politicians_config.py:110-113 | exactly the stored configurations whose status is active, in insertion order, each once |
| Politicians.GetBySearchName | politicians_config.py:115-120 | none iff no config has the search name; otherwise the first one that has it |
| Politicians.WithText | politicians_config.py:136 | sets one text field and leaves the others and the status alone |
| Politicians.Assign | politicians_config.py:132-136 | unknown keys are ignored; a text field is set to the value; a status string is converted or refused; a status assignment changes only the status |
| Politicians.AssignAll | politicians_config.py:131-136 | the assignments fail iff some status string is not a status value |
| Politicians.LastTextWins | politicians_config.py:131-136 | when nothing fails, a text field holds the value of the last assignment naming it |
| Politicians.LastStatusWins | politicians_config.py:131-136 | when nothing fails, the status is the one the last status assignment gives |
| Politicians.UnnamedFieldKept | politicians_config.py:132-136 | a field no assignment names keeps its value |
| Politicians.StatusKeptUnlessAssigned | politicians_config.py:132-135 | without a status assignment the status is kept and nothing fails |
| Politicians.Update | politicians_config.py:126-139 | an absent name gives false with nothing changed; otherwise only that entry changes, to the assigned fields |
| Politicians.UpdateSetsText | politicians_config.py:126-139 | after a successful update of a stored politician, each text field holds the last value assigned to it |
| Politicians.CreateDefaultConfig | politicians_config.py:76-91 | "pelosi" maps to the default configuration; other names are unchanged |
| Politicians.DefaultIsPelosiAlone | politicians_config.py:76-91 | from an empty registry, one entry "pelosi", which is the one active politician |
| Scraper.FilingIdFromUrl | scraper.py:160-166 | the identifier holds no slash |
| Scraper.FilingIdOfPdfLink | scraper.py:160-166 | a link to `<name>.pdf` gives `<name>` |
| Scraper.GenerateFilingId | scraper.py:304-317 | never empty; the segment without `.pdf`/`.PDF` when something is left, else the hash |
| Scraper.GeneratedIdOfLowerLink | scraper.py:304-317 | `<name>.pdf` gives `<name>` |
| Scraper.GeneratedIdOfUpperLink | scraper.py:304-317 | `<name>.PDF` gives `<name>` |
| Scraper.BareExtensionFallsBack | scraper.py:313-315 | a bare `/.pdf` falls back to the hash |
| Scraper.MultiFilingId | multi_politician_scraper.py:163-174 | either a non-empty digit string or the digest prefix |
| Scraper.MultiIdOfDigitLink | multi_politician_scraper.py:166-170 | `.../<digits>.pdf` gives exactly those digits |
| Scraper.MultiIdFallsBack | multi_politician_scraper.py:172-174 | a URL not ending in `.pdf` gives the digest prefix |
| Scraper.MultiIdNeedsDigits | multi_politician_scraper.py:168-174 | a file name not ending in a digit gives the digest prefix |
| Scraper.IsPelosiName | scraper.py:295-302 | the variation test holds iff "pelosi" or "nancy" occurs in the lower-cased name |
| Scraper.IsPelosiFiling | scraper.py:275-293 | a filing is Pelosi's iff its link text or name contains "pelosi" or "nancy", ignoring case, a missing entry counting as empty |
| Scraper.NoEntriesNoMatch | scraper.py:284-293 | a filing without link text and name is never Pelosi's |
| Scraper.IsPtr | scraper.py:137-138 | a PTR iff the letters P, T, R, in either case, occur in a row in the type |
| Scraper.PtrIgnoresCase | scraper.py:137-138 | the PTR test is the same on the upper- and lower-cased type |
| Scraper.LowerCasePtr | scraper.py:137-138 | a type containing "ptr" in lower case is a PTR |
| Scraper.LastName | multi_politician_scraper.py:68 | the last name holds no comma |
| Scraper.LastNameOf | multi_politician_scraper.py:68 | "Last, First" gives `strip("Last")` |
| Scraper.ScanFromPolicy | scraper.py:36-42 | the scan gathers the years down to a stop year: the last year, or the first at which more than twenty are held; twenty or fewer were held before it |
| Scraper.ScanYears | scraper.py:35-42 | the whole 2025→2020 scan gathers the years down to its stop year |
| Scraper.Insert | scraper.py:45 | insertion keeps the list descending and adds exactly the one element |
| Scraper.Sort | scraper.py:45 | the result is descending by key and a permutation of the input |
| Scraper.SearchFilings | scraper.py:28-55 | when all identifiers are integers, the scanned filings newest first (a permutation); otherwise nothing |
| Scraper.SearchPoliticianFilings | multi_politician_scraper.py:41-60 | the same scan and order over one politician's searches |
| Scraper.Project | multi_politician_scraper.py:245-255 | one old-format filing per filing, in order, with its four fields |
| Scraper.CompatSearch | multi_politician_scraper.py:233-255 | nothing without a "pelosi" entry; otherwise that politician's filings in the old format |
| Scraper.ProjectionKeepsOrder | multi_politician_scraper.py:245-255 | the projection keeps the newest-first order of identifiers |
| Tracker.WalkNew | pelosi_tracker.py:118-128 | the unseen filings form a prefix; the walk stops at a processed filing or takes the whole list |
| Tracker.FindNewFilings | pelosi_tracker.py:108-139 | the result is a prefix of the scraped list of unseen filings; beyond two only when a processed filing ended it |
| Tracker.StopsAtProcessed | pelosi_tracker.py:124-131 | with a processed filing, exactly the filings before the first one, no cap |
| Tracker.FreshDatabaseKeepsTwo | pelosi_tracker.py:131-133 | with nothing processed, the first `min(2, len)` filings |
| Tracker.LookupErrorYieldsNothing | pelosi_tracker.py:137-139 | a lookup that raises before a processed filing gives nothing |

## Left out

- Opening PDFs and extracting their text (`extract_trades`, pdf_parser.py:19-50): a foreign library and file I/O. The model starts from the text.
- Python's `re` is not modelled in general: each pattern has its own capture function that follows the pattern's leftmost, lazy and greedy behaviour.
- `\d`, `\w`, `upper()`, `lower()` and `title()` are ASCII. Unicode case mapping and Unicode digits are not modelled. Whitespace is Python's `isspace` set.
- HTTP, HTML parsing, the Discord POST with its retries and sleeps (discord_notifier.py:266-309), SQLite, logging, timestamps: I/O. A year's search results, the database lookup and the delivery outcome are parameters.
- `hash()`, `hashlib.md5` and `urlparse`: foreign functions. The hash value, the hex digest and the URL path are parameters.
- Notifier.SendBulkTradeNotification: the exception handler (discord_notifier.py:50-52) is not modelled. The embed formatting it guards cannot raise on the well-typed records of the model.
- Notifier.TradeEmbed, Notifier.BulkEmbed: the title, footer, avatar and timestamp are not modelled; colour, fields and description are.
- `send_filing_summary` and `test_connection` of the notifier are not modelled; they are not part of the selection logic.
- JSON load and save of the registry (politicians_config.py:53-74): file I/O. Saving after add, remove and update has no effect in the model.
- `get_politician_config` and `get_all_active_politicians` (politicians_config.py:141-150) build a registry from the file. Scraper.CompatSearch takes the registry as a parameter instead.
- Configurations are modelled as values. In Python one configuration object can sit under two keys (renamed through `update_politician`, then passed to `add_politician`, politicians_config.py:93-96), and an update through one key then shows under the other; the model keeps the two copies apart.
- Politicians.Update: `setattr` on a field name the dataclass does not have but `hasattr` finds (a method name, say) is treated like an unknown key.
- Scraper.Sort: stability is not stated. Equal identifiers keep their order in the definition, but no lemma says so.
- Scraper.SearchFilings: only the failing `int(filing_id)` is modelled as an exception. A year's search that raises gives nothing for that year, inside the year search.
- Scraper.LastName: the search request built from the last name is network I/O.
- Tracker.FindNewFilings: a failure of the scraper itself is already caught inside the scraper (Scraper.SearchFilings gives nothing). Only the database lookup is a failure point.
- The orchestration and CLI files (`multi_politician_tracker.py`, the rest of `pelosi_tracker.py`, `manage_politicians.py`, `check_status.py`, `create_deployment_package.py`, `test_same_channel.py`) are not part of this model.

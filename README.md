# sarstats core in Dafny

This project models the core of **sarstats**, a tool that reads the text
reports of `sar(1)` and turns them into graphs. It covers:

- **The report parser** (sar_parser.py). `SarParser` is the `Parser.SarParser` class. Its fields are
  the parsed data (timestamp → key → value), the category map, the current and saved
  dates, the previous timestamp and the line numbers of duplicate writes.
  - `parse` is a method that walks the state machine `start`, `after_first_line`,
    `after_empty_line`, `table_start`, `table_row`, `table_end` and
    `skip_until_eot` one line at a time.
  - `_record_data` handles the time window, the 23h→0h day rollover, the refusal of
    time going backwards, 2D and 3D rows, the `retrans/s` rename and the
    `all`/`Summary` rows.
  - `_prune_data` runs its passes as methods over the data (module `Prune`).
  - Between files `parse` resets only the previous timestamp. The saved date
    `_olddate` of a day crossing is never reset (sar_parser.py:120, 319, 459-460).
    So once one file has crossed midnight, the first table header of every later
    file moves the date back to that saved date, whatever date the file's own
    first line gives. The model keeps this behaviour (`ParserLemmas.SavedDateRestored`).
  - Each method is proved against a specification function on a `Snapshot` of
    the object's fields. The lemmas about those functions state what the parser
    promises: the data stays consistent, every timestamp ends with the same keys,
    no all-zero key survives, and each state transition does what the code does.
  - The queries `available_types`, `datanames_per_arg`, `find_max` and
    `find_data_gaps` are functions of that state (modules `Queries` and `Parser`).
- **The counter catalog** (sar_metadata.py).
  - `base_graphs` is a generated table (module `Catalog`): the name, category, value
    pattern and label of every entry.
  - `get_regexp`, `get_category`, `get_labels_title`, `get_desc` and
    `list_all_categories` are in module `Metadata`.
- **`natural_sort_key`** (sos_utils.py, with identical copies in sar_parser.py and
  SAR.py) and sorting by it (module `NaturalSort`).
- **The legacy parser** SAR.py (module `Legacy`, class `Legacy.Sar`). It differs from
  sar_parser.py as follows:
  - duplicate columns are fatal except for `FILESYSTEM`;
  - there is no time window;
  - a line holding `LINUX RESTART` where a table header is due is read as the
    header: a timestamped `LINUX RESTART` header ends the table and any other such
    line raises (SAR.py:433-442). sar_parser.py skips such lines, and exactly empty
    ones, and keeps waiting in `table_start` (sar_parser.py:454-455). SAR.py never
    stays in `table_start`: the line that enters it is read as the header at once;
  - its `_prune_data` leaves the category map alone;
  - its `_data` and `_categories` are class-level dictionaries shared by all
    instances (class `Legacy.SharedTables`).

  Module `LegacyLemmas` relates it to the current parser.
- **The list and string work of sar_stats.py** (module `Stats`): `split_chunks`, the
  order, filtering and chunk titles of `graphs_order`, the custom graph
  specifications read in `graph`, and `parse_labels`.
- **The /proc/interrupts splitter** of sos_report.py (class `Interrupts.SosReport`).
  sosreport.py holds an older copy of the same splitter with the same behaviour;
  its `int(irq)` attempt has no effect.

Regular expressions are written out as recognisers where the code depends on
their exact shape: the timestamp, the header line, the first line, the interrupt
counter names. The row matcher built from a table's value patterns is a
parameter, `Params.matcher`, which returns the captured groups or nothing.
`float()` is a parameter too.

Some behaviours of the code the model keeps:
- `get_desc([])` returns `[]`: an empty list takes the loop branch and builds nothing (sar_metadata.py:1325-1346).
- `txbyt/s` has the decimal value pattern (sar_metadata.py:597-599).
- SAR.py's `_ignore_timestamp` tests the seconds modulo 60, on two-digit seconds (SAR.py:294-304).
- SAR.py's `_prune_data` prunes the rows and leaves the category map alone (SAR.py:153-190).

## Model

| member | source | states |
|---|---|---|
| Timestamps.FindTime | sar_parser.py:75 | `re.search` of `HH:MM:SS`: the leftmost position where the pattern matches, and none exactly when no position matches |
| Timestamps.ClockHour | sar_parser.py:81-87 | `12 AM` is hour 0, `PM` before 12 adds 12, and hour 24 becomes 0 |
| Timestamps.Canonicalise | sar_parser.py:69-91 | raises exactly when no `HH:MM:SS` occurs; otherwise a valid instant on the given date; the legacy copy in `SAR.py` follows the same rules |
| Timestamps.CanonicaliseOnAnyDate | sar_parser.py:317-321 | re-reading the timestamp on the next day after a midnight rollover cannot fail and keeps the time of day |
| Timestamps.CanonicaliseFields | sar_parser.py:75-88 | minute and second are read from the leftmost match; the hour is read there and then adjusted |
| Timestamps.TwelveHourRules | sar_parser.py:81-87 | `12:MM:SS AM` is 0h, `HH PM` with 1 ≤ HH < 12 is HH+12, `24:..` is 0h |
| Timestamps.IgnoreTimestamp | SAR.py:294-304 | raises exactly when there is no `HH:MM:SS`; otherwise true iff the seconds are neither 0 nor 60 |
| Calendar.NextDay | sar_parser.py:318 | `timestamp + timedelta(days=1)`: a valid date, and none only after 9999-12-31 |
| Calendar.NextDayOrdinal | sar_parser.py:318 | the next day is one day number later |
| Calendar.BeforeIffSeconds | sar_parser.py:322 | comparing datetimes is comparing their seconds since the epoch, in both directions |
| Calendar.BeforeStrictOrder | sar_parser.py:322 | the datetime order is a strict total order |
| Lines.StripNewlines | sar_parser.py:421 | `rstrip("\n")`: a prefix of the line ending in no newline, and only newlines are removed |
| Lines.AverageLineDialects | SAR.py:83-87 | every legacy summary line is a current summary line, and `Average ` without a colon is one only for sar_parser.py |
| Lines.ColumnHeaders | sar_parser.py:233-271 | a header line starts with `HH:MM:SS`, optionally with AM/PM, and its header names are non-empty with no blank and no decimal point |
| Lines.HeadersFound | sar_parser.py:246-268 | header names are non-empty and hold no blank and no '.' |
| Lines.PiecesNoDot | sar_parser.py:247-258 | no header group contains '.', so a row of decimals is never read as a header line |
| Lines.LegacyPiecesAreCurrent | SAR.py:224-262 | every header group SAR.py accepts, sar_parser.py accepts too |
| Lines.Words | sar_parser.py:268 | `[h for h in s.split(" ") if h != ""]` gives non-empty words without blanks |
| Lines.SlashDateShortYear | sar_parser.py:223-229 | `MM/DD/YY` reads as year `20YY` |
| Lines.ShortYear | sar_parser.py:227-228 | prefixing "20" to a two-digit year gives 2000 + YY |
| Lines.FirstLineRoundTrip | sar_parser.py:200-231 | a first line `kernel release (host) yyyy-mm-dd` parses back into its four parts |
| Lines.DateTokens | sar_parser.py:203-216 | the four groups of the first-line pattern, with the host taken out of its parentheses |
| Lines.PreambleFromTokens | sar_parser.py:203-231 | a line tokenised as kernel, release, `(host)` and a date gives that preamble |
| Metadata.GetRegexp | sar_metadata.py:1215-1230 | the structural table first, then the catalog pattern, then the interrupt pattern for `i<digits>/s`; raises exactly when none applies |
| Metadata.MHzIsDecimal | sar_metadata.py:1219 | `MHz` is integer in the catalog, but `get_regexp` gives the decimal pattern |
| Metadata.TxBytesIsDecimal | sar_metadata.py:597-601 | `txbyt/s` has a pattern: decimal |
| Metadata.InterruptColumnPattern | sar_metadata.py:1227-1228 | an unlisted `i<digits>/s` gets the interrupt pattern |
| Metadata.DigitsThenRateIff | sar_metadata.py:1227 | the recogniser of `i[0-9]*/s` is exactly "digits, then `/s`" |
| Metadata.GetCategory | sar_metadata.py:1279-1304 | everything no prefix or catalog entry claims is `Interrupts` |
| Metadata.CompositeCategory | sar_metadata.py:1280-1295 | every composite key takes the category of its index column |
| Metadata.BusCategory | sar_metadata.py:1279-1304 | `BUS#..` keys have no prefix rule and fall through to `Interrupts` |
| Metadata.NoIndexPrefix | sar_metadata.py:1279-1304 | a name without '#' outside `TTY`/`IFACE` is categorised by the catalog alone |
| Metadata.CatalogCategory | sar_metadata.py:1297-1298 | a catalog name without an index prefix gets its catalog category |
| Metadata.IndexValues | sar_metadata.py:1267 | the labels are the index values of the keys, in input order |
| Metadata.GetLabelsTitle | sar_metadata.py:1232-1270 | the method's single pass with early return computes the heading that the spec function `LabelsTitle` defines |
| Metadata.CompositeParts | sar_metadata.py:1241 | `idx#value#column` splits back into its three parts |
| Metadata.OneColumnHeading | sar_metadata.py:1264-1268 | keys that share one sub-column are titled by it and labelled by their index values |
| Metadata.MixedCategoriesRefused | sar_metadata.py:1258-1259 | keys of two index columns raise |
| Metadata.PlainGroupHeading | sar_metadata.py:1244-1245 | several names with a plain one among them give the joined names and the names |
| Metadata.Collapse | sar_metadata.py:1310 | `re.sub('[\n ]+', ' ', s)`: no newline and no two adjacent blanks remain, and only the empty string maps to empty |
| Metadata.CollapseKeepsText | sar_metadata.py:1310 | text without blanks or newlines is kept as it is, in front of whatever follows |
| Metadata.CollapseRun | sar_metadata.py:1310 | a whole run of blanks and newlines becomes exactly one blank; with `CollapseKeepsText` this fixes the result on every string |
| Metadata.GetDesc | sar_metadata.py:1306-1348 | the method's pass over the names, tracking the previous sub-column, computes the description list that the spec function `Desc` defines |
| Metadata.SingleDesc | sar_metadata.py:1311-1324 | a catalog name gets its collapsed description; an unknown, non-composite, non-interrupt name raises |
| Metadata.AdjacentColumnsDescribedOnce | sar_metadata.py:1328-1340 | adjacent keys of one sub-column are described once |
| Metadata.SameColumnOnce | sar_metadata.py:1337-1340 | after a sub-column is described, further keys of it add nothing |
| Metadata.InterruptsDescribedOnce | sar_metadata.py:1331-1335 | all interrupt sub-columns share one `int/s` entry |
| Metadata.ListAllCategories | sar_metadata.py:1272-1277 | the seven fixed categories plus every catalog category, and nothing else |
| NaturalSort.SplitDigits | sos_utils.py:44-47 | `re.split("([0-9]+)")` alternates non-digit runs and digit runs |
| NaturalSort.SplitDigitsConcat | sos_utils.py:46 | the pieces of the split concatenate back to the string |
| NaturalSort.KeyAlternates | sos_utils.py:44-47 | the key has odd length, strings at even positions (lower-case) and numbers at odd ones |
| NaturalSort.CaseInsensitive | sos_utils.py:45 | the key of `s` is the key of `s.lower()` |
| NaturalSort.SplitDigitsLower | sos_utils.py:45-46 | lower-casing commutes with the split |
| NaturalSort.MicheleExample | sos_utils.py:36 | `natural_sort_key("michele0123") == ['michele', 123, '']` |
| NaturalSort.LeadingZerosDropped | sos_utils.py:45 | `"a007"` gives `['a', 7, '']` |
| NaturalSort.SplitDigitPrefix | sos_utils.py:46 | a digit run at the front is a piece of its own after an empty one |
| NaturalSort.SplitNonDigitPrefix | sos_utils.py:46 | a non-digit run at the front joins the first piece |
| NaturalSort.NaturalLePreorder | sar_parser.py:44-52 | comparing keys is a total preorder, so `sorted(..., key=natural_sort_key)` is well defined |
| NaturalSort.NaturalSorted | sar_parser.py:594 | `sorted(names, key=natural_sort_key)`: a permutation, ordered by the key |
| Report.IndexColumn | sar_parser.py:336-341 | the first header in the index set, or none when the table is 2D |
| Report.PlainKeysOf | sar_parser.py:346-366 | the keys of a 2D row, built header by header |
| Report.PlainKeysRename | sar_parser.py:350-353 | the only change to a 2D header is `retrans/s` after `estres/s` becoming `retrant/s` |
| Report.PlainKeyByPrevious | sar_parser.py:352 | comparing with the previous stored key is the same as comparing with the previous header |
| Report.CompositeKeysOf | sar_parser.py:379-404 | the keys `index#value#header` and raw values of a 3D row, skipping the index column |
| Report.CompositeKeysSplit | sar_parser.py:388 | each 3D key splits back into index column, index value and header |
| Report.PutKeys | sar_parser.py:363 | writing a row adds exactly the written keys |
| Report.PutWritten | sar_parser.py:363 | the last write of a key wins |
| Report.PutUntouched | sar_parser.py:363 | keys not written keep their values |
| Report.CategoriseEntries | sar_parser.py:364 | every written key gets `get_category` of itself; other entries are unchanged |
| Report.RowClasses | sar_parser.py:289-304 | the patterns of all headers, or an error naming the first header without one |
| Parser.SarParser.constructor | sar_parser.py:104-133 | the empty parser over the given files and window |
| Parser.SarParser.WriteRow | sar_parser.py:354-365 | writes the values and categories; a line number is recorded iff a key was already there |
| Parser.SarParser.LocateRow | sar_parser.py:308-329 | window check, rollover and the backwards error, with nothing changed on error or outside the window |
| Parser.SarParser.StoreRow | sar_parser.py:331-406 | creates the timestamp's row, then stores the 2D or 3D row |
| Parser.SarParser.RecordData | sar_parser.py:306-406 | `_record_data`; on error nothing changes |
| Parser.SarParser.FirstLine | sar_parser.py:422-425 | the `start` state reads the preamble |
| Parser.SarParser.TableStartLine | sar_parser.py:453-489 | the `table_start` state |
| Parser.SarParser.TableRowLine | sar_parser.py:491-515 | the `table_row` state |
| Parser.SarParser.ParseLine | sar_parser.py:419-529 | one iteration of the `parse` loop |
| Parser.SarParser.PruneData | sar_parser.py:150-198 | `_prune_data`, on the data and the category map |
| Parser.SarParser.Parse | sar_parser.py:408-533 | all files in order, then pruning; the first error stops everything |
| Parser.SarParser.AvailableTypes | sar_parser.py:564-569 | the keys of the first timestamp that start with the category; raises on no data |
| Parser.SarParser.DatanamesPerArg | sar_parser.py:571-633 | every grouped name is an available type of the category; raises on no data |
| Parser.SarParser.FindMax | sar_parser.py:641-651 | at the nearest timestamp: raises iff a name is missing or holds no float; otherwise the result is -1 or one of the values, at least -1, and no value exceeds it |
| Parser.SarParser.FindDataGaps | sar_parser.py:653-677 | every gap is a pair of timestamps in order, more than the limit apart; none with fewer than two |
| Parser.RunFilesStops | sar_parser.py:413-530 | after a file raises, later files are not read |
| ParserLemmas.InitialConsistent | sar_parser.py:104-133 | the fresh parser is consistent |
| ParserLemmas.WriteConsistent | sar_parser.py:363-364 | writing a row keeps the data consistent |
| ParserLemmas.StoreConsistent | sar_parser.py:331-406 | storing a row keeps the data consistent |
| ParserLemmas.LocateKeeps | sar_parser.py:308-329 | locating a row yields a valid instant and changes only the dates |
| ParserLemmas.RecordConsistent | sar_parser.py:306-406 | `_record_data` keeps the data consistent |
| ParserLemmas.TableStartKeeps | sar_parser.py:453-489 | a header line changes neither the data, nor the order, nor the categories |
| ParserLemmas.HeaderKeeps | sar_parser.py:456-489 | in either parser a header line changes neither the data, nor the order, nor the categories |
| ParserLemmas.TransitionConsistent | sar_parser.py:419-529 | every line keeps the data consistent |
| ParserLemmas.RunFilesConsistent | sar_parser.py:413-530 | reading any files keeps the data consistent |
| ParserLemmas.PrunedCategorised | sar_parser.py:191-198 | after pruning every key still has its category |
| ParserLemmas.FinishConsistent | sar_parser.py:150-198 | pruning keeps the data consistent |
| ParserLemmas.ParseResult | sar_parser.py:408-533 | after `parse`, every timestamp has the same keys, no key was zero everywhere and no category is left for a gone key |
| ParserLemmas.OutsideWindow | sar_parser.py:311-314 | a row outside the window changes nothing, not even the previous timestamp |
| ParserLemmas.Rollover | sar_parser.py:317-321 | 23h→0h moves the date on a day and saves the old one; beyond 9999-12-31 it raises |
| ParserLemmas.StoreKeepsDates | sar_parser.py:329-406 | writing a row leaves the date, the saved date, the previous timestamp and the line count alone |
| ParserLemmas.Backwards | sar_parser.py:322-328 | any other step back in time raises |
| ParserLemmas.FirstRowNotCompared | sar_parser.py:315 | the first row of a table or file is never compared |
| ParserLemmas.WriteStored | sar_parser.py:363-364 | each written key holds its value (unless written again later) and its category |
| ParserLemmas.PlainRowStored | sar_parser.py:346-367 | header i of a 2D row is stored under its key with capture i+2 |
| ParserLemmas.PlainRowDuplicate | sar_parser.py:354-357 | the line is recorded as duplicate iff one of its keys was already there |
| ParserLemmas.StoreOthers | sar_parser.py:331-406 | storing a row touches no other timestamp |
| ParserLemmas.SummaryRowSkipped | sar_parser.py:374-377 | `all`/`Summary` rows only create the timestamp's row |
| ParserLemmas.CompositeRowStored | sar_parser.py:379-404 | every non-index header of a 3D row is stored under `index#value#header` with its own capture |
| ParserLemmas.CompositeKeyAt | sar_parser.py:383-404 | header j is key and value number j, or j−1 past the index column |
| ParserLemmas.BlankAfterFirstLine | sar_parser.py:427-434 | after the first line, exactly a blank line is accepted |
| ParserLemmas.AfterBlankLine | sar_parser.py:436-445 | blank lines are absorbed, a summary line ends the table, anything else is re-read as a table start |
| ParserLemmas.RestartLinesSkipped | sar_parser.py:454-455 | `LINUX RESTART` lines and exactly empty lines are skipped in `table_start` |
| ParserLemmas.TableHeader | sar_parser.py:456-489 | a header restores the saved date; restart headers end the table, skipped tables are passed over, others start a table with no previous row |
| ParserLemmas.TableHeaderRefused | sar_parser.py:461-465 | a non-header line, or a header without a pattern, raises |
| ParserLemmas.InTable | sar_parser.py:491-512 | in a table, blank leaves, summary ends, an unmatched row raises |
| ParserLemmas.AfterTable | sar_parser.py:517-529 | after a table only blank and summary lines are accepted |
| ParserLemmas.FilesStartFresh | sar_parser.py:413-415 | every file starts in `start` with no previous timestamp, and nothing else is reset |
| ParserLemmas.SavedDateRestored | sar_parser.py:413-460 | a file read after a day crossing reads its own first line, then its first table header moves the date back to the saved date of an earlier file |
| ParserLemmas.StartKeepsSaved | sar_parser.py:420-425 | the first line sets the preamble and the date and keeps the saved date |
| ParserLemmas.HeaderAfterBlank | sar_parser.py:436-456 | after a blank line, a line that is neither blank, nor a summary, nor a restart line is read as a table header |
| ParserLemmas.HeaderRestoresDate | sar_parser.py:457-460 | a table header moves the date back to the saved date, if any, and keeps the saved date |
| Prune.CollectKeys | sar_parser.py:155-158 | the keys of all rows |
| Prune.AllZero | sar_parser.py:161-166 | true iff the key is zero wherever it has a value |
| Prune.ZeroOnlyKeys | sar_parser.py:160-169 | the keys that are zero everywhere they occur |
| Prune.DropKeys | sar_parser.py:171-176 | every row loses exactly those keys |
| Prune.FillRows | sar_parser.py:186-189 | every row gains the missing keys as `None` |
| Prune.PruneRows | sar_parser.py:150-189 | the passes together give the pruned data and the surviving keys |
| Prune.DropCategories | sar_parser.py:191-198 | the category map keeps exactly the surviving keys |
| Prune.NoZeroOnlyKeySurvives | sar_parser.py:160-176 | no surviving key was zero at every timestamp where it occurred |
| Prune.SameKeysEverywhere | sar_parser.py:178-189 | after pruning every timestamp has the same key set |
| Prune.ValuesKept | sar_parser.py:171-189 | non-zero values stay where they were; filled gaps are `None` |
| Prune.PruneIdempotent | sar_parser.py:150-198 | pruning twice is pruning once |
| Prune.CategoriesFollowData | sar_parser.py:191-198 | the pruned category map names only keys still in the data |
| Prune.PrunedMapped | sar_parser.py:171-198 | pruning adds no key, so any categorisation of the data still covers the pruned rows |
| Queries.TypesIn | sar_parser.py:568 | the sorted keys of a row that start with the category |
| Queries.Distinct | sar_parser.py:584-592 | the dict keys in first-occurrence order, without repeats |
| Queries.Groups | sar_parser.py:580-633 | raises exactly when a name does not split into three parts on '#' |
| Queries.GroupsCover | sar_parser.py:594-608 | groups are non-empty, share their part and hold no `DEVICE` sub-column; every other name is in a group |
| Queries.GroupsOrdered | sar_parser.py:594 | groups come in `natural_sort_key` order of their parts |
| Queries.ConsOrdered | sar_parser.py:594-608 | a group whose part is no greater than every later group's keeps the list of groups ordered |
| Queries.MaxFromErrors | sar_parser.py:647-649 | `find_max` raises iff a name is missing or not a number |
| Queries.MaxFromIsMax | sar_parser.py:646-651 | the result is −1 or one of the values, and none is greater |
| Queries.Nearest | sar_parser.py:645 | `min(..., key=abs(t - d))`: the first timestamp of least distance |
| Queries.Gaps | sar_parser.py:665-675 | exactly the consecutive pairs more than the limit apart |
| Queries.DataGapsForward | sar_parser.py:653-677 | each gap is in order, more than the limit wide, with no timestamp strictly inside |
| Legacy.Sar.constructor | SAR.py:124-151 | a parser over the class-level shared tables |
| Legacy.FirstRepeat | SAR.py:344-345 | the first key that SAR.py finds already there |
| Legacy.Sar.LocateRow | SAR.py:308-319 | no window: every valid timestamp is located, with rollover and the backwards error |
| Legacy.Sar.WriteRow | SAR.py:338-389 | the write stops at the first key already there unless overwriting is allowed; the keys before it stay written in the shared tables |
| Legacy.Sar.StoreRow | SAR.py:321-391 | the checked store |
| Legacy.Sar.RecordData | SAR.py:306-391 | SAR.py's `_record_data` |
| Legacy.Sar.HeaderLine | SAR.py:433-456 | the `table_start` state |
| Legacy.Sar.RowLine | SAR.py:458-476 | the `table_row` state |
| Legacy.Sar.FirstLine | SAR.py:404-407 | the `start` state |
| Legacy.Sar.ParseLine | SAR.py:401-487 | one iteration of SAR.py's loop |
| Legacy.Sar.PruneData | SAR.py:153-190 | pruning without touching the category map |
| Legacy.Sar.Parse | SAR.py:393-491 | the whole file, then pruning |
| Legacy.Sar.DatanamesPerArg | SAR.py:522-569 | raises exactly when there is no data |
| LegacyLemmas.NoWindowLocates | SAR.py:306-319 | without a window no row is passed over |
| LegacyLemmas.CheckedStoreAgrees | SAR.py:321-391 | an accepted row is stored exactly as sar_parser.py stores it, apart from duplicate tracking |
| LegacyLemmas.PlainDuplicateFatal | SAR.py:344-345 | a repeated 2D key raises, naming the first; otherwise the row is accepted |
| LegacyLemmas.CompositeDuplicate | SAR.py:377-381 | a repeated 3D key raises unless the index column is `FILESYSTEM` |
| LegacyLemmas.RestartLineDialects | SAR.py:415-442 | after a blank line, a line holding `LINUX RESTART` is skipped by sar_parser.py; SAR.py reads it as the header, ending the table on a timestamped `LINUX RESTART` header and raising on a line that is no header |
| LegacyLemmas.LegacyNeverWaits | SAR.py:415-456 | no line leaves SAR.py's parser in `table_start` |
| LegacyLemmas.RestartHeaderEndsTable | SAR.py:439-442 | `LINUX RESTART` headers end the table |
| LegacyLemmas.LegacyTransitionConsistent | SAR.py:401-487 | every line keeps the data consistent |
| LegacyLemmas.LegacyParseConsistent | SAR.py:393-491 | the parse result is consistent, and its categories are those from before pruning |
| LegacyLemmas.PrunedCategorisedKeep | SAR.py:153-190 | the rows left by pruning keep their categories |
| LegacyLemmas.DatanamesAfterPrune | SAR.py:522-569 | after pruning, the timestamp read does not matter |
| Stats.ChunksFlatten | sar_stats.py:63-68 | concatenating the chunks gives back the list |
| Stats.ChunkSizes | sar_stats.py:63-68 | chunks are non-empty and at most n long, all but the last exactly n, and there are ⌈len/n⌉ of them |
| Stats.ChunkAt | sar_stats.py:65-66 | chunk i is `l[i*n : i*n+n]` |
| Stats.Unskip | sar_stats.py:237-243 | a composite key survives iff none of its '#'-parts is in the skip list |
| Stats.GroupByCategory | sar_stats.py:208-218 | composite groups by the category of their first key; a failing lookup is skipped, a raising `datanames_per_arg` raises |
| Stats.AddPlainGraphs | sar_stats.py:226-233 | one plain graph per catalog name of the category not skipped |
| Stats.TitleChunks | sar_stats.py:246-252 | chunk i of k is titled "{title} i/k" |
| Stats.AddGroupGraphs | sar_stats.py:235-257 | one group: filtered, naturally sorted, split above `maxgraphs` |
| Stats.AddCompositeGraphs | sar_stats.py:234-257 | the groups of one category in order |
| Stats.AddCategoryGraphs | sar_stats.py:225-257 | plain graphs, then composite graphs, of one category |
| Stats.GraphsOrder | sar_stats.py:192-259 | the whole list, category after category |
| Stats.PlainGraphsMembers | sar_stats.py:226-233 | a plain graph is drawn exactly for catalog names of the category not skipped |
| Stats.GroupGraphsColumns | sar_stats.py:244-257 | splitting loses and adds no column; `maxgraphs` < 0 drops the group and 0 raises on a non-empty group |
| Stats.ChunkedTitles | sar_stats.py:244-254 | a split group gives graphs of at most `maxgraphs` columns titled i/k |
| Stats.CompositeUnskipped | sar_stats.py:234-257 | no composite graph draws a skipped part, and every column comes from a group |
| Stats.ParseCustomGraphs | sar_stats.py:336-346 | the custom graph map, a later label replacing an earlier one; a spec without ':' raises |
| Stats.CustomGraphParts | sar_stats.py:339-341 | "label:a,b" gives the label and the values a, b |
| Stats.CustomGraphTail | sar_stats.py:339-341 | text after a second ':' is dropped |
| Stats.CustomGraphNoColon | sar_stats.py:340 | a spec without ':' raises |
| Stats.LastCustomGraphWins | sar_stats.py:342 | each label holds the values of its last spec |
| Stats.ParseLabels | sar_stats.py:71-85 | `None` gives `[]`; otherwise `(time, label)` pairs in order, the first unparsable time raising |
| Stats.LabelPartsMeaning | sar_stats.py:79-80 | the label is the text before the first ':', and the time text is the rest with every ':' removed |
| Interrupts.ParseInt | sos_report.py:63-65 | `int()` of a token succeeds exactly on optionally signed digits |
| Interrupts.ParseInts | sos_report.py:65 | each count parsed, or the first bad one raising |
| Interrupts.SosReport.constructor | sos_report.py:22-35 | no `nr_cpus` and no interrupts yet |
| Interrupts.SosReport.ParseIntEntry | sos_report.py:61-75 | `_parse_int_entry` |
| Interrupts.SosReport.ParseLine | sos_report.py:79-90 | one line of `_parse_interrupts` |
| Interrupts.SosReport.FileEntry | sos_report.py:88-90 | `{}` is stored first, then the entry if it parses |
| Interrupts.SosReport.ParseInterrupts | sos_report.py:77-91 | all lines in order, stopping at the first exception; the older copy in `sosreport.py` behaves the same |
| Interrupts.ScanLinesStop | sos_report.py:77-91 | once a line raises, the lines after it are not read |
| Interrupts.EntryShape | sos_report.py:62-74 | cpu starts with `int(fields[0])` and holds the first `nr_cpus` counts when there are enough fields; `type` iff more than `nr_cpus` fields; `users` is `[]` at exactly `nr_cpus`+1; the older copy in `sosreport.py` has the same shape |
| Interrupts.UsersFromFirstOccurrence | sos_report.py:70-72 | `users` is the rest of the line from the first occurrence of the field, split on ',' and stripped |
| Interrupts.EntryErrors | sos_report.py:62-74 | no count, a non-integer count or no CPU header yet raise, in that order |
| Interrupts.FieldsFound | sos_report.py:71 | `line.index` never fails on a field of the line |
| Interrupts.HeaderLine | sos_report.py:85-87 | a `CPU` line sets `nr_cpus` to its field count and stores nothing |
| Interrupts.EntryLine | sos_report.py:88-90 | other lines store under the IRQ stripped of ':' |
| Interrupts.OtherLineKeeps | sos_report.py:88-90 | a line for another IRQ leaves an entry alone |
| Interrupts.LastLineWins | sos_report.py:77-91 | each IRQ holds the entry of its last line |
| Interrupts.IntOfNatString | sos_report.py:64 | `int(str(n)) == n` |

## Left out

- File reading, `print`, the sosreport directory probing in `SarParser.__init__`, and all rendering (matplotlib, reportlab, gnuplot, CSV export) are left out. The files are given as their lines.
- The Python regular expression engine is not modelled. The row matcher is a parameter (`Params.matcher`). The regexp size limit (`AssertionError`) path is left out.
- `float()` is a parameter (`FloatParser`). The `numpy.mean` sampling frequency is left out: `find_data_gaps` takes `int(freq * 1.1)` as a parameter.
- `dateutil` parsing is left out. The start and end times are given as instants. `parse_labels` takes the date parser as a parameter.
- `graph_info` is not part of this model. `graphs_order` takes it as a parameter.
- `graphs_order` walks the set of index columns in an unspecified order, which is given as a parameter. The list built at sar_stats.py:200-206 is discarded at line 223, so it is not modelled.
- `available_data_types` returns a set. `graphs_order` takes its elements in any order before sorting them.
- The catalog's description prose is not copied. `get_desc` takes the description lookup as a parameter.
- Parameter checks done with `isinstance(names, list)` are left out: the model's inputs are sequences.
- The code is read with Python 2 dictionary semantics. `has_key` is membership, and `cat.keys()[0]` in `get_labels_title` is the only key.
- Interrupts.ParseInt: accepts ASCII digits with an optional sign. It does not accept the underscores and Unicode digits `int()` also takes.
- Legacy.Sar.LocateRow: time going backwards in SAR.py names the undefined `timestamps` and `line` (SAR.py:317-318). In Python this surfaces as a `NameError`. The model reports it as its own error.
- Reboot scraping, ethtool parsing and disk parsing in sos_report.py and sosreport.py are left out. They are directory listings and file reads.
- NaturalSort.NaturalSortKey: stated for ASCII text only. A non-ASCII digit such as "٣" stays text where Python 3's `str.isdigit` makes it a number, and "É" is not lower-cased where `str.lower` gives "é". sar column names are ASCII.
- Text.IsDigit: ASCII digits only, where Python 3's `str.isdigit` follows Unicode.
- Text.IsSpace: ASCII whitespace only, where Python 3's `str.split` and `str.strip` follow Unicode.
- Text.Lower: ASCII letters only, where Python 3's `str.lower` follows Unicode.
- Interrupts.SosReport.ParseLine: strips the line and splits its fields on ASCII whitespace only, and `Interrupts.SosReport.ParseIntEntry` strips the users the same way. `/proc/interrupts` is ASCII.
- Legacy.Sar.StoreRow: on a duplicate column its ensures give the error but not the partly written shared tables; `Legacy.Sar.WriteRow` states them. `Legacy.Sar.RecordData` and `Legacy.Sar.ParseLine` inherit this.

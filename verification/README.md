# Comdirect checking-account importer, modelled in Dafny

This project models the core of `beancount-comdirect`. That package turns a Comdirect
"Girokonto" CSV statement into Beancount directives: one transaction per booked table row,
followed by one closing-balance assertion.

The model covers three source files:

- `beancount_comdirect/extractors/checking.py`, in `extractor.dfy`:
  - the column layout and the table header line (`HEADER`, `MAPPINGS`);
  - the per-row getters;
  - payee and purpose extraction by literal markers (`extract_between`, which is
    `re.search(re.escape(start) + "(.*?)" + re.escape(end), text)` followed by `strip()`).
- `beancount_comdirect/checking.py`, in `importer.dfy`: `CheckingImporter.extract` and
  `_update_meta`:
  - splitting the lines at the header;
  - folding the preamble into an insertion-ordered label map with line indices;
  - the prefix dispatch that sets the period bounds and the closing balance, dated one day
    after its label;
  - the transaction loop;
  - the trailing balance.
- `beancount_comdirect/utils/maybe.py`, in `maybe.dfy`: the `Maybe` wrapper and its
  `map` / `flat_map`.

Supporting modules:

- `wrappers.dfy`: `Option`, `Result`, and one `Error` per raising site.
- `strings.dfy`: `startswith`, literal occurrence, `str.strip()` with Python's whitespace
  set, and the character-set forms `lstrip(chars)` / `rstrip(chars)`.
- `calendar.dfy`: proleptic Gregorian dates, the strict `dd.mm.yyyy` parse, and
  `+ timedelta(days=1)`.

The properties are proved in `extractor_props.dfy` and `importer_props.dfy`.
`sample_statement.dfy` works the four booked rows of the repository's sample statement
(`tests/test_checking.py`) through the getters. Each row lemma holds for any row whose cells
carry the sample's text. The descriptions are written as concatenations of named pieces, split
at the markers, and the pieces spell the sample's text exactly.

The importer object's mutable fields become an explicit `State`. `Extract` takes a state and
returns a `Run` that holds the final state and either the directives or the error raised.
This makes two things visible:
- The state as far as `_update_meta` got before it raised.
- What a second `extract` call on the same object inherits from the first.

The collaborators the core calls but does not define are parameters:
- `csv_reader`, `csv_dict_reader` and `fmt_number_de` are the `Decoders` record;
- `AccountMatcher` is the `Matcher` record.

Behaviour of the code that is easy to misread:

- The importer's fields live on the object and are never reset. They are not a per-call
  accumulator. `StaleClosingBalance` shows the effect: a statement without a
  `Kontostand vom` label reports the previous statement's balance, and `StalePeriodDates` does
  the same for the period bounds. `ExtractTwice` shows that
  re-running the same statement still returns the same result.
- A missing header raises the `ValueError` of `lines.index` (`HeaderNotFound`), not
  `InvalidFormatError`.
- The balance fields are not set all-or-nothing. The amount is stored before the label's
  date is parsed, so a bad date leaves the new amount with the old date and line index
  (`SetClosingBalance`).
- `value.rstrip(" EUR")` and `key.lstrip("Kontostand vom ")` strip character sets, not a
  literal suffix or prefix. The model uses the character-set forms.
- The amount of a row is parsed before the `offen` check. A malformed amount therefore fails
  the call even on a row that is then skipped (`RowFails`).

Line indices:
- The preamble rows are numbered from 1.
- The transaction rows continue the count from the number of preamble rows.
- The header line is consumed by the dictionary reader and is not counted. The index counts
  decoded rows, not physical lines: when every line decodes to exactly one row, a transaction's
  `lineno` is one less than its physical line number. Blank lines that the dictionary reader
  skips, and quoted fields spanning lines, break that correspondence.
- A configured `meta_code` of `"lineno"` overwrites the position (`Booking`).

## Model

| member | source | states |
|---|---|---|
| Extractor.HeaderText | beancount_comdirect/extractors/checking.py:12-25 | The header line is the five column names, each in double quotes, joined by `;`, with a trailing `;`. |
| Extractor.Column | beancount_comdirect/extractors/checking.py:27-32 | Every column a getter reads is one of the header's columns. |
| Extractor.LazyEndSpec | beancount_comdirect/extractors/checking.py:75-76 | The lazy `(.*?)` followed by the end marker stops at the first occurrence of the end marker. It finds none exactly when a line feed precedes every occurrence. |
| Extractor.SearchFromSpec | beancount_comdirect/extractors/checking.py:75-76 | The search returns a match that starts leftmost and has the shortest capture. It returns nothing exactly when no start marker is followed on the same line by an end marker. |
| Extractor.GetBookingDate | beancount_comdirect/extractors/checking.py:38-39 | On success, the booking day is a valid date whose `dd.mm.yyyy` text is the cell. Otherwise the error names the cell's text. |
| Extractor.FirstApplying | beancount_comdirect/extractors/checking.py:56-64 | Returns the index of the first rule whose description and event prefixes both match, or nothing when no rule matches. |
| ExtractorProps.SearchFindsFirstMatch | beancount_comdirect/extractors/checking.py:75-76 | Any leftmost match with the shortest capture is exactly what the search returns. |
| ExtractorProps.SearchGivesFirstMatch | beancount_comdirect/extractors/checking.py:75-76 | Conversely, what the search returns is the leftmost match with the shortest capture. |
| ExtractorProps.ExtractBetweenNoneIff | beancount_comdirect/extractors/checking.py:74-80 | `extract_between` returns `None` if and only if the text has no match at all. |
| ExtractorProps.ExtractBetweenSome | beancount_comdirect/extractors/checking.py:74-78 | A result is the stripped text between the markers of the first match. |
| ExtractorProps.ExtractBetweenCapture | beancount_comdirect/extractors/checking.py:74-78 | The result is the stripped capture of the search's span, and the capture holds no occurrence of the end marker. |
| ExtractorProps.ExtractBetweenResultShape | beancount_comdirect/extractors/checking.py:78 | The result has no surrounding whitespace. For a non-empty end marker it does not contain that marker. |
| ExtractorProps.SingleLineSearch | beancount_comdirect/extractors/checking.py:75-76 | On text without line feeds, the search is the first start marker followed by the first end marker after it. |
| ExtractorProps.MatchInsideSlice | beancount_comdirect/extractors/checking.py:75-76 | For markers without whitespace, the matches of a text padded with whitespace are those of the unpadded text, shifted. |
| ExtractorProps.SearchInsideSlice | beancount_comdirect/extractors/checking.py:75-76 | The first match in a padded text is the first match in the unpadded text, shifted. |
| ExtractorProps.NoMatchInsideSlice | beancount_comdirect/extractors/checking.py:75-76 | A padded text without a match leaves the unpadded text without one. |
| ExtractorProps.ExtractIgnoresPadding | beancount_comdirect/extractors/checking.py:74-80 | For markers without whitespace, surrounding whitespace does not change the result of `extract_between`. |
| ExtractorProps.ExtractOfStripped | beancount_comdirect/extractors/checking.py:74-80 | For markers without whitespace, `extract_between` on a text and on the stripped text agree. |
| ExtractorProps.PurposeOfStrippedDescription | beancount_comdirect/extractors/checking.py:66-71 | The purpose, which is searched in the raw description, equals the search in the stripped description. |
| ExtractorProps.FirstPayeeRule | beancount_comdirect/extractors/checking.py:50-64 | Which of the four payee rules comes first, decided by the description and event prefixes. |
| ExtractorProps.PayeeFollowsRuleTable | beancount_comdirect/extractors/checking.py:50-64 | Some rule always applies. The payee is `extract_between` over the stripped description with the markers of the first rule that applies. |
| ExtractorProps.FallbackPayeeIsPurpose | beancount_comdirect/extractors/checking.py:50-71 | When the description starts with neither `Auftraggeber` nor `Empfänger`, the payee equals the purpose. |
| ExtractorProps.ExtractFromParts | beancount_comdirect/extractors/checking.py:74-80 | A text made of a prefix, the start marker, a one-line middle, the end marker and a rest gives the stripped middle, provided the start marker does not begin inside the prefix and the end marker does not begin inside the middle. |
| Strings.StripDropsOnlyWhitespace | beancount_comdirect/extractors/checking.py:48 | `strip()` returns a contiguous slice of its input, with only whitespace outside that slice. |
| Strings.StripEnds | beancount_comdirect/extractors/checking.py:48 | The stripped text neither starts nor ends with whitespace. |
| Strings.StripIdempotent | beancount_comdirect/extractors/checking.py:48 | Stripping twice equals stripping once. |
| Strings.LStripChars | beancount_comdirect/checking.py:168 | `lstrip(chars)` removes the longest prefix of characters in the set. The result is a suffix of the input and does not start with a character from the set. |
| Strings.RStripChars | beancount_comdirect/checking.py:165 | `rstrip(chars)` removes the longest suffix of characters in the set. The result is a prefix of the input and does not end with a character from the set. |
| Calendar.ParseDate | beancount_comdirect/extractors/checking.py:39 | A parsed date is valid and its `dd.mm.yyyy` text is the input. A failed parse names the input. |
| Calendar.ParseFormatRoundTrip | beancount_comdirect/extractors/checking.py:39 | Every valid date parses back from its `dd.mm.yyyy` text. |
| Calendar.ParseDateAccepts | beancount_comdirect/extractors/checking.py:39 | A text is accepted if and only if it is the `dd.mm.yyyy` text of some valid date. |
| Calendar.NextDay | beancount_comdirect/checking.py:167-169 | Adding one day fails exactly on 31.12.9999. Otherwise the result is a valid date. |
| Calendar.NextDayIsOneDayLater | beancount_comdirect/checking.py:167-169 | The next day's ordinal is one more than the day's ordinal. |
| Calendar.NextDayIsSuccessor | beancount_comdirect/checking.py:167-169 | The next day comes after the day, and no valid date lies strictly between them. |
| Maybes.GetIsEmptyTruthy | beancount_comdirect/utils/maybe.py:17-24 | `get` returns the wrapped value. `is_empty` holds exactly when that value is `None`, and `__bool__` is its negation. |
| Maybes.Maybe.Map | beancount_comdirect/utils/maybe.py:7-10 | An empty wrapper stays empty without the callback being consulted; a full one holds the callback's result for the wrapped value, `None` giving the empty wrapper. |
| Maybes.Maybe.FlatMap | beancount_comdirect/utils/maybe.py:12-15 | An empty wrapper stays empty; a full one gives back exactly the wrapper the callback returns for the value. |
| Maybes.MapIdentity | beancount_comdirect/utils/maybe.py:7-10 | Mapping the function that returns its argument changes nothing. |
| Maybes.MapComposition | beancount_comdirect/utils/maybe.py:7-10 | Mapping twice equals mapping the composition once, where `None` from the first callback skips the second. |
| Maybes.MapIsFlatMapOfWrap | beancount_comdirect/utils/maybe.py:7-15 | `map` equals `flat_map` with a callback whose result is wrapped again. |
| Maybes.FlatMapLeftIdentity | beancount_comdirect/utils/maybe.py:12-15 | `flat_map` on a full wrapper is the callback applied to the value. |
| Maybes.FlatMapRightIdentity | beancount_comdirect/utils/maybe.py:12-15 | `flat_map` with the wrapping callback changes nothing. |
| Maybes.FlatMapAssociative | beancount_comdirect/utils/maybe.py:12-15 | Chained `flat_map` calls can be regrouped. |
| Importer.ParseAmount | beancount_comdirect/checking.py:91-93 | The amount fails exactly when the number parser rejects the text. Otherwise it is the parsed number in the configured currency. |
| Importer.IndexOf | beancount_comdirect/checking.py:58 | `lines.index` returns the first position holding the line, and finds none exactly when the line is absent. |
| Importer.SplitAtHeader | beancount_comdirect/checking.py:58-61 | Fails exactly when no line is the header. Otherwise the preamble and the table put back together are the input lines, the preamble contains no header, and the table starts with the header. |
| Importer.Put | beancount_comdirect/checking.py:76 | Storing a label keeps an existing key in place and appends a new key at the end, as a Python dict does. |
| Importer.PutLookup | beancount_comdirect/checking.py:76 | After storing, the label maps to the new value and every other label to what it mapped to before. |
| Importer.ReadMetadata | beancount_comdirect/checking.py:65-76 | After the preamble loop, the line index is the number of preamble rows, blank rows included. |
| Importer.Classify | beancount_comdirect/checking.py:152-156 | The three label prefixes are checked in order: `Von`, then `Bis`, then `Kontostand vom`. |
| Importer.SetDate | beancount_comdirect/checking.py:152-155 | A period label sets only its own bound to the parsed date. A bad date raises and leaves the state unchanged. |
| Importer.SetClosingBalance | beancount_comdirect/checking.py:156-170 | A bad amount raises with the state unchanged. A bad label date raises after the amount is stored. On success, the balance is dated the day after the label's date and tagged with the row's line index. |
| Importer.UpdateEntry | beancount_comdirect/checking.py:151-170 | A label with none of the three prefixes changes nothing. |
| Importer.RowUnits | beancount_comdirect/checking.py:89-93 | An empty amount cell gives no units. Otherwise the units are the parsed amount, or the parse error. |
| Importer.Booking | beancount_comdirect/checking.py:87-134 | The transaction carries the payee, the purpose as narration, the position metadata (`filename` is the statement's file name and `lineno` the row's line index, unless the meta code names that key), the description under a configured meta code, the account posting, and a second posting exactly when the payee matcher accepts the payee. |
| Importer.RowOutcome | beancount_comdirect/checking.py:84-134 | A row fails exactly when its amount or, for a booked row, its date is malformed. Rows marked `offen` yield nothing. A booked row yields its booking. |
| Importer.CollectRows | beancount_comdirect/checking.py:84-134 | The transaction loop fails exactly when some row fails, and otherwise advances the line index by the number of rows. |
| Importer.Finish | beancount_comdirect/checking.py:78-148 | An error from the state update raises first, then a failed row. Otherwise the transactions are followed by the balance from the updated state. |
| Importer.Extract | beancount_comdirect/checking.py:51-148 | A successful call ends with the closing balance built from the final state. |
| ImporterProps.ExtractWithoutHeader | beancount_comdirect/checking.py:58 | Without the header line the call raises and leaves the state untouched. |
| ImporterProps.ReadMetadataLastRow | beancount_comdirect/checking.py:68-76 | The last preamble row either stores its label, tagged with its line index, or leaves the lookup as before. |
| ImporterProps.ReadMetadataLookup | beancount_comdirect/checking.py:65-76 | A label maps to the value of the last row carrying it, tagged with that row's line index. A label that no row carries is absent. |
| ImporterProps.ReadMetadataFails | beancount_comdirect/checking.py:68-74 | The preamble fails if and only if some row has exactly one field and is not blank. The error then names the first such row. |
| ImporterProps.PeriodEntryWrites | beancount_comdirect/checking.py:152-155 | A period label's update is its state-independent writes applied to the state. |
| ImporterProps.BalanceEntryWrites | beancount_comdirect/checking.py:156-170 | The closing-balance update is its state-independent writes applied to the state. |
| ImporterProps.UpdateEntryWrites | beancount_comdirect/checking.py:151-170 | Each step of `_update_meta` is its state-independent writes applied to the state. |
| ImporterProps.UpdateMetaWrites | beancount_comdirect/checking.py:150-170 | The whole `_update_meta` loop, up to the first error, is its combined writes applied to the starting state. |
| ImporterProps.NoBalanceLabelNoBalanceWrites | beancount_comdirect/checking.py:156-170 | Without a `Kontostand vom` label, no balance field is written. |
| ImporterProps.ExtractTwice | beancount_comdirect/checking.py:51-170 | Running `extract` again on the same statement, from the state the first run left, gives the same result and the same state. |
| ImporterProps.StaleClosingBalance | beancount_comdirect/checking.py:136-170 | A statement without a `Kontostand vom` label keeps the balance fields of the previous state. |
| ImporterProps.ClosingBalanceDayAfter | beancount_comdirect/checking.py:164-170 | The closing balance date is exactly one day after the label's date. |
| ImporterProps.LabelDate | beancount_comdirect/checking.py:167-168 | For a well-formed label `Kontostand vom dd.mm.yyyy:`, the character-set strips leave exactly the date text. A date starts and ends with a digit, which neither set contains. |
| ImporterProps.ClosingBalanceOfLabel | beancount_comdirect/checking.py:156-170 | A well-formed `Kontostand vom <date>:` label with an accepted amount stores the amount. The balance date is then `<date>` plus one day, and the line index is the label row's. On 31.12.9999 the step raises instead. |
| ImporterProps.EuroAmountText | beancount_comdirect/checking.py:164-165 | For a value `<number> EUR` whose number does not end in a space, `E`, `U` or `R`, the amount text is the number. |
| ImporterProps.AmountSuffixIsCharSet | beancount_comdirect/checking.py:165 | `rstrip(" EUR")` strips a character set, not a suffix: `100 REU` also gives `100`. |
| ImporterProps.NoPeriodLabelNoPeriodWrites | beancount_comdirect/checking.py:150-155 | Without a `Von` or `Bis` label, neither period bound is written. |
| ImporterProps.StalePeriodDates | beancount_comdirect/checking.py:46-49 | A statement without `Von` and `Bis` labels keeps the period bounds of the previous state, so `file_date` reports the previous statement's end date. |
| ImporterProps.FreshSentinelBalance | beancount_comdirect/checking.py:34-38 | A fresh importer whose statement has no `Kontostand vom` label ends with the constructor's placeholders. The balance has line index -1 and neither a date nor an amount. |
| ImporterProps.Emitted | beancount_comdirect/checking.py:84-134 | The positions of the rows that yield an entry: strictly increasing, each yields one, and every row that yields one is among them. |
| ImporterProps.CollectRowsLast | beancount_comdirect/checking.py:84-134 | The last row appends its transaction, if any, to the entries of the rows before it. |
| ImporterProps.CollectRowsEntries | beancount_comdirect/checking.py:84-134 | The loop's k-th entry is what the k-th emitting row yielded, at that row's line index. |
| ImporterProps.BookedPositions | beancount_comdirect/checking.py:96-98 | The positions of the booked rows, strictly increasing, each in range and booked. Every booked row's position is among them, and there are as many as booked rows. |
| ImporterProps.TransactionLoopFails | beancount_comdirect/checking.py:84-134 | The transaction loop fails if and only if some row fails. |
| ImporterProps.EmittedAreBooked | beancount_comdirect/checking.py:94-98 | Without failing rows, exactly the booked rows yield a transaction. |
| ImporterProps.EmittedAreBookedWhenOk | beancount_comdirect/checking.py:94-98 | After a completed loop, exactly the booked rows yielded a transaction. |
| ImporterProps.TransactionLoopEntries | beancount_comdirect/checking.py:84-134 | A completed loop holds one transaction per booked row, in row order, each built from that row at its line index. |
| ImporterProps.ExtractEntries | beancount_comdirect/checking.py:51-148 | A successful call returns one transaction per booked row, in order, followed by the closing balance, so there is one more directive than booked rows. |
| SampleStatement.CashDepositRow | tests/test_checking.py:49-53 | For the sample's cash deposit, with the row from line 32: booked on 10 April 2022. Payee and narration are both the text between `Buchungstext:` and `Ref.`, because the description starts with neither `Auftraggeber` nor `Empfänger`. |
| SampleStatement.TransferOutRow | tests/test_checking.py:55-57 | For the sample's outgoing transfer, with the row from line 33: booked on 11 April 2022. The payee is `Max Mustermann`, found between `Empfänger:` and `Kto/IBAN` even though no space precedes `Kto/IBAN`. |
| SampleStatement.TransferInRow | tests/test_checking.py:62-64 | For the sample's incoming transfer, with the row from line 34: booked on 12 April 2022. The payee is `Max Mustermann`, found between `Auftraggeber:` and `Ref.` because the event starts with `Übertrag`. |
| SampleStatement.DirectDebitRow | tests/test_checking.py:67-70 | For the sample's direct debit, with the row from line 35: booked on 12 April 2022. The event is not a transfer, so the payee is the creditor between `Auftraggeber:` and `Buchungstext:`. The narration is the text between `Buchungstext:` and `Ref.`. |
| SampleStatement.SampleDirectiveCount | tests/test_checking.py:47 | The sample imports to five directives: four transactions and the closing balance. Assumed: the preamble reads and updates without error, the table decodes to four rows with the sample's booking days, and the number parser accepts their amounts. |

## Left out

- Reading the statement: opening the file, decoding ISO-8859-1 and stripping each line. `Extract` takes the stripped lines.
- `csv_reader`, `csv_dict_reader` and `fmt_number_de`: the helpers module is not part of this model. They are the injected `Decoders`, and the number parser signals failure with `None`.
- `AccountMatcher`: the helpers module is not part of this model. It is the injected `Matcher`, a predicate and an account function over the payee.
- Short table rows, which `csv.DictReader` pads with `None`: every `Row` holds all five columns.
- `strptime`'s lenient forms: one-digit days and months, and a single space before a one-digit day, are rejected, not accepted.
- Decimal amounts: numbers are `real`, so `Decimal` precision and representation are not modelled.
- `name`, `file_account` and `file_date`: trivial accessors. `file_date` returns the period end that `SetDate` stores.
- Beancount's record types: directives keep only the fields the importer sets. The posting's cost, price, flag and meta, and the balance's tolerance and difference, are always `None` in the source and are omitted.
- `Maybe.__repr__`: string formatting only.
- `ENCODING`, `TYPE_CHECKING` and the `label` entry of the `CHECKING` constant: the core does not use them.
- The sample statement's amounts and posting counts: amounts go through the injected number parser and postings through the injected payee matcher. The sample rows state the booking date, payee and narration. `SampleDirectiveCount` states the directive count for any decoders that read the sample's table and accept its amounts.
- Extractor.GetEvent, Extractor.GetAmount, Extractor.GetDescription, Extractor.GetPayee, Extractor.GetPurpose, Extractor.ExtractBetween and Importer.UpdateMeta: they carry no contract of their own. Their properties are the lemmas above: `PayeeFollowsRuleTable` and `PurposeOfStrippedDescription` for the getters, `ExtractBetweenNoneIff`, `ExtractBetweenSome`, `ExtractBetweenCapture` and `ExtractBetweenResultShape` for `extract_between`, and `UpdateMetaWrites` with `StaleClosingBalance` and `StalePeriodDates` for `_update_meta`.

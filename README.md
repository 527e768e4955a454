# Qiita contribution report, modelled in Dafny

`retrieve.py` reads, for each requested Qiita user, the user's profile
and every article the user wrote. For each article it reads the
timestamps, likes, comments and stockers. It checks each article against
an optional inclusive date window (`--start` and `--end` days) and scores
the user as
`floor(items + likes + 0.5 * stockers + 0.5)`. Then it writes a CSV
report. The report has a fixed header and one ranked line per user whose
retrieval did not raise, sorted by contribution from largest to smallest.

The model keeps the program's structure:

- `Calendar` holds dates and date-times as Python's `datetime` compares
  and adds them. Instants are integer seconds counted from Python's
  `toordinal()`.
- `Timestamps` reads the first 19 characters of an RFC 3339 date-time in
  the strict `YYYY-MM-DDTHH:MM:SS` shape that
  `strptime(s[:19], '%Y-%m-%dT%H:%M:%S')` accepts. The further leniencies
  of `strptime` are listed under "Left out".
- `Paging` covers the page-numbered listing endpoints (`per_page=10`).
- `Api` is the server, given as an input value. A user id or item id
  missing from its maps is a request that raises.
- `Items` holds the `Item` class: a constructor, the stockers paging loop
  `CountStockers`, and `Fetch`, which returns `null` where `Item(...)`
  raises.
- `Users` holds the `User` class: its counters, the item paging loop, the
  summing loop and the score.
- `Csv` covers `str()` of a number and `','.join` of fields, each with
  the reader it is proved against.
- `Report` covers `main` after argument parsing: the window, the loop
  over users with its `try`/`except`, the stable descending sort and the
  ranked lines.

Each loop of the source is a method with a loop. It is proved against a
function: `CountStockers` against `SumLengths`/`LastPage`,
`User.GetItems` against `ItemsOf`, `User.CalcContribution` against
`Sum`/`CountValid`, `Collect` against `Successes`, and `WriteReport`
against `ReportLines`. The lemmas state what those functions mean.

## Model

| member | source | states |
|---|---|---|
| Calendar.SecondsOrder | retrieve.py:163-166 | Comparing instants as seconds agrees with Python's field-by-field `datetime` comparison, for both `<` and `==`. |
| Calendar.NextDayOrdinal | retrieve.py:242 | `+ timedelta(days=1)` on any valid day except 9999-12-31 gives a valid day whose ordinal is one greater. |
| Calendar.InstantBounds | retrieve.py:239-243 | Every valid date-time lies between 0001-01-01 00:00:00 and 9999-12-31 23:59:59. |
| Calendar.EndOfDayFails | retrieve.py:240-243 | Normalising an end day fails, as `OverflowError`, exactly when the day is 9999-12-31. |
| Calendar.EndOfDayIsLastSecond | retrieve.py:240-243 | On every other day the normalised end is 23:59:59 of that day. It is at or after every instant of the day and exactly one second before the next day begins. |
| Timestamps.ParseFormat | retrieve.py:155-162 | The canonical 19-character text of a date-time, followed by any suffix such as a UTC offset, parses back to that date-time. The suffix is ignored. |
| Timestamps.ParsedIsFormatted | retrieve.py:155-162 | Whatever parses starts with the canonical text of its result, so parsing is one-to-one on the 19-character prefix. |
| Paging.LastPage | retrieve.py:87-88 | The page after which a paging loop stops is the first page shorter than 10. Every earlier page holds at least 10 entries. |
| Paging.LastPageUnique | retrieve.py:190-191 | The stopping page is fixed by what a loop can observe: a short page preceded only by full ones. |
| Paging.CollectedLength | retrieve.py:80-89 | The number of entries received is the sum of the lengths of pages 1..k, where k is the first short page. |
| Paging.CollectedIgnoresLaterPages | retrieve.py:71-89 | Pages after the first short one are never requested. Replacing them changes nothing received. |
| Paging.CollectedWellFormed | retrieve.py:71-89 | When every page but the last is full and the last is short, the loop receives every entry, in page order and within-page order. |
| Items.Item.constructor | retrieve.py:139-171 | The item is valid iff it is inside the window. An item failing the start check or the end check keeps likes, comments and stockers at 0. A valid one takes the fetched counts and the stockers total. |
| Items.Item.CountStockers | retrieve.py:173-193 | `_get_stockers_count` returns the sum of the lengths of stocker pages 1..k, where k is the first page shorter than 10. |
| Items.Item.Fetch | retrieve.py:132-171 | `Item(...)` raises exactly where the item or one of its timestamps cannot be read. Otherwise the constructed item is the one `ItemOutcome` describes. |
| Items.ItemOutcomeMeaning | retrieve.py:143-170 | A constructed item carries its id. Both metadata timestamps parse, and `created_at` and `updated_at` are their instants. It is valid iff `(start is None or updated_at >= start) and (end is None or created_at <= end)`, with both bounds inclusive. An invalid item has zero likes, comments and stockers. A valid item has the fetched likes, comments and stockers total. |
| Items.ItemOutcomeFails | retrieve.py:154-162 | The constructor raises exactly when the metadata request fails or either timestamp does not parse. |
| Items.InvalidItemIgnoresStockers | retrieve.py:163-170 | For an invalid item, no stockers pagination runs: its record does not depend on the stockers endpoint. |
| Items.StockerTotalMeaning | retrieve.py:176-193 | The stockers count equals the number of stockers received. It does not depend on pages after the first short one. |
| Users.Contribution | retrieve.py:102-105 | The score is `floor(items + likes + stockers/2 + 1/2)` in exact arithmetic, stated as bounds on twice the result. So halves round up and the score is at least `items + likes`. |
| Users.User.constructor | retrieve.py:36-47 | A new user has every counter at 0 and no items. |
| Users.User.Retrieve | retrieve.py:52-60 | The constructor's requests succeed exactly when `UserOutcome` does. The counters then hold that record: profile counts, item counts and score. |
| Users.User.GetItems | retrieve.py:63-91 | `_get_items` succeeds exactly when every item on pages 1..k can be constructed, k the first short page. `self.items` then gains exactly those items, in order. |
| Users.User.AppendItems | retrieve.py:80-86 | The inner loop appends one item per id of a page, in order. It fails exactly when one of those constructors raises. |
| Users.User.CalcContribution | retrieve.py:93-106 | Each counter grows by the number of valid items or by the sum of its metric over all items. The score is `Contribution` of the new counters. |
| Users.PageStep | retrieve.py:71-89 | One iteration of the item paging loop: the items so far are extended by the page's items. A failure on the page is a failure of the whole listing. A short page is the last one requested. |
| Users.FetchItemsMeaning | retrieve.py:80-86 | The item list succeeds iff every constructor succeeds. Its i-th record is then the i-th id's item. |
| Users.ItemsOfMeaning | retrieve.py:66-89 | `_get_items` yields exactly one settled item per id of pages 1..k, in page and within-page order. So `len(self.items)` is the sum of those pages' lengths. |
| Users.UserOutcomeFails | retrieve.py:56-60 | A user fails exactly when the profile request fails or one listed item's constructor raises. |
| Users.CountValidBound | retrieve.py:97-98 | The number of valid items equals the length of the list of valid items and is at most the number of items. |
| Users.SumOverValid | retrieve.py:97-101 | Invalid items add 0, so each sum over all items equals the sum over the valid items alone. |
| Users.UserOutcomeMeaning | retrieve.py:93-120 | A successful user's record holds the user id, the profile counts, the number of valid items (at most the number of items) and the sums over valid items, and its score is computed from these. |
| Report.StartBoundMeaning | retrieve.py:236-238 | With a `--start` day, an item passes the lower bound iff it was updated on that day or later. |
| Report.EndBoundMeaning | retrieve.py:239-243 | With an `--end` day, an item passes the upper bound iff it was created on that day or earlier. |
| Report.MakeWindowFails | retrieve.py:236-243 | `main` stops before any request with `InvalidDate` iff a given day is not a date. It stops with `DateOutOfRange` iff the days are dates and the end day is 9999-12-31. |
| Report.ValidityByDay | retrieve.py:163-167 | An item is valid iff it was updated on or after the start day and created on or before the end day. Both days count in full. |
| Report.ItemValidityByDay | retrieve.py:155-167 | An item constructed under the window of the given days is valid iff the day of its parsed `updated_at` is not before the start day and the day of its parsed `created_at` is not after the end day. |
| Report.Collect | retrieve.py:244-256 | The user loop collects exactly `Successes`: the records of the users whose construction succeeds. |
| Report.SuccessesConcat | retrieve.py:245-256 | The loop handles each user on its own. The result for a concatenation of id lists is the concatenation of the results. |
| Report.SuccessesMeaning | retrieve.py:245-258 | No more records than ids. No records iff every user fails. When every user succeeds, the records are the users' records in input order, duplicates included. |
| Report.SuccessesFromIds | retrieve.py:245-256 | Every collected record is the record of one of the requested ids. |
| Report.SortSorted | retrieve.py:265-269 | The ranking is ordered by contribution from largest to smallest. |
| Report.SortPermutes | retrieve.py:265-269 | The ranking is a permutation of the collected records. |
| Report.SortStable | retrieve.py:265-269 | Records with equal contribution keep their collected order: the sort is stable even with `reverse=True`. |
| Report.InsertSorted | retrieve.py:265-269 | Inserting a record into a ranking keeps it ordered. |
| Report.InsertPermutes | retrieve.py:265-269 | Inserting a record adds exactly that record. |
| Report.InsertStable | retrieve.py:265-269 | An inserted record goes ahead of the later records with the same contribution, and their order is kept. |
| Report.WriteReport | retrieve.py:263-272 | The writing loop produces the header, then the line of the i-th ranked record with rank i + 1. |
| Report.Run | retrieve.py:236-272 | `main` after argument parsing returns the report `Outcome` describes: an error or the lines of the file. |
| Report.HeaderFields | retrieve.py:259-264 | The header is `rank` followed by the eight column names. |
| Report.RowRoundTrip | retrieve.py:270-272 | A line read back gives its rank and its record, for any user id without a comma. Ids come from splitting `--users` at commas. |
| Report.OutcomeNoData | retrieve.py:257-258 | A run fails with `NoData` iff the days are accepted and every user fails. |
| Report.OutcomeReport | retrieve.py:257-272 | A report has the header, then one line per successful user, ordered by contribution from largest to smallest, with every successful user exactly once. Line i reads back as rank i and its user's record. |
| Report.ReportLinesMeaning | retrieve.py:263-272 | For a non-empty list of records, the lines are the header and one line per record in ranked order, and each line reads back as its rank and record. |
| Csv.NatRoundTrip | retrieve.py:270-272 | The decimal text `str()` writes for a count reads back as the count. |
| Csv.NatToStringInjective | retrieve.py:270-272 | Different counts are written as different texts. |
| Csv.SplitJoin | retrieve.py:264 | Splitting a line joined with `','` from comma-free fields gives the fields back. |

## Left out

- HTTP requests, JSON decoding, the bearer-token headers and URL building are not modelled. The server is an input value (`Api.Server`): a profile per user id, metadata and stocker pages per item id, and item pages per user id. A missing key stands for a request that raises.
- Paging requests never fail in the model. A network error in the middle of a paging loop, or an endpoint that answers full pages forever (on which the source never terminates), cannot be written down. Every page past the given ones is empty.
- Argument parsing, the comma split and strip of `--users`, the `print` progress output and opening and writing the output file are not modelled. The run returns the file's lines.
- `strptime` of `--start`/`--end` is not modelled: the days come in as `Date` values, and an impossible date is an `InvalidDate` error. Item timestamps are read strictly as `YYYY-MM-DDTHH:MM:SS`. Leniencies of `strptime` that the model rejects: digit runs shorter than the field width (such as `2020-1-5T3:4:5`), a space before a one-digit day, a lower-case `t` as the separator, and non-ASCII Unicode decimal digits. On a timestamp that uses any of them the model's item fails, where the source may build the item.
- Floating point is not modelled. The score is `floor(items + likes + 0.5 * stockers + 0.5)` computed in exact arithmetic; rounding of very large float values is not captured.
- The catch-all `except Exception` is not modelled as arbitrary exceptions. Each user's retrieval either gives a record or fails, as a missing key or an unparsable timestamp.
- Time zones are not modelled: the offset after the 19th character is discarded, as in the source. Microseconds do not occur.
- `token` and `headers` are not modelled, because they only feed the requests. The `start`/`end` copies that each object keeps are modelled as `Item.window` and `User.window`.

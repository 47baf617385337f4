# Historical-data collector: verified model of its core logic

The application asks a language model to invent a historical time series
for one of eleven categories. It appends the series to one shared data
file and shows a chart of it. Three pieces of its own logic are modelled
here and proved in Dafny:

- **The reply cleaner** (`Fences`). The reply is stripped of whitespace.
  If the stripped text opens with ```` ```json ````, its first 7 and last 3
  characters are dropped. Otherwise, if it opens with ```` ``` ````, its
  first 3 and last 3 are dropped. The rest is stripped again. `Strip` is
  Python's `str.strip()` over the `str.isspace` character set. `Slice` is
  Python's clamped `s[start:stop]`.
- **The data file and Collect** (`Catalog`, `Storage`). `DataFile` holds
  the file as `Option<seq<Row>>`, where `None` means no file yet.
  `Collect` checks the category against the catalog, then asks the
  fetcher, then rewrites the file as the old rows followed by one tagged
  row per fetched record. The fetcher is a function parameter, called
  only after the category check.
- **The Analyze view** (`Analysis`). It keeps the rows of the requested
  category in file order. If none match, it answers "no data". Otherwise
  it builds a view with the description and units of the first matching
  row and one `(year, value)` point per matching row. `ChartAxes` gives
  the chart's year and value lists.

Two behaviours of the code differ from what a reader would expect; the
model follows the code:

- One would expect Analyze to show the description and units most
  recently collected for a category. The code takes `iloc[0]`, the OLDEST
  matching row. `AnalyzeAfterRepeatCollect` proves the code's behaviour:
  after a second Collect the view still shows the first dataset's
  description and units.
- One would expect the cleaner to remove a closing fence only when there
  is one. The code checks only the opening fence. It drops the last three
  characters whatever they are (`CleanJsonDropsAnyTail`,
  `CleanBareDropsAnyTail`).

## Model

| member | source | states |
|---|---|---|
| `Fences.IsSpace` | app.py:75 | the characters `str.strip()` removes: Python's whitespace set, tab to carriage return, the four separators, space, NEL, no-break space and the Unicode space separators |
| `Fences.StartsWith` | app.py:78-80 | `t.startswith(p)`: the text is at least as long as the prefix and begins with it |
| `Fences.Strip` | app.py:75 | the result is never longer than the input, has no whitespace at either end, and is empty exactly when the input is all whitespace |
| `Fences.StripExact` | app.py:75 | any split of a text into whitespace, a trimmed middle and whitespace has that middle as its strip: strip removes exactly the outer whitespace |
| `Fences.StripIdempotent` | app.py:79 | stripping the stripped text again changes nothing |
| `Fences.Slice` | app.py:79 | a Python slice holds the text's characters from the clamped start bound on, and exactly as many of them as the clamped stop bound lies past the start bound (none otherwise) |
| `Fences.SliceDropsEnds` | app.py:79 | `s[front:-back]` is exactly `s[front..max(front, len-back)]` |
| `Fences.Clean` | app.py:75-81 | the cleaned text is never longer than the reply and has no leading or trailing whitespace |
| `Fences.CleanUnfenced` | app.py:78-81 | a reply whose stripped form does not open with a fence comes back as that stripped form |
| `Fences.CleanJsonFence` | app.py:78-79 | for a stripped reply `t` opening with ```` ```json ````, the result is `strip(t[7 .. max(7, len-3)])`; such a `t` also opens with a bare fence, so this branch takes precedence |
| `Fences.CleanBareFence` | app.py:80-81 | for a stripped reply `t` opening with ```` ``` ```` but not ```` ```json ````, the result is `strip(t[3 .. max(3, len-3)])` |
| `Fences.BareFenceNotJson` | app.py:78-80 | a body between two bare fences reads as a ```` ```json ```` reply only if the body starts with `json` |
| `Fences.CleanJsonDropsAnyTail` | app.py:79 | after ```` ```json ```` any three-character tail ending in a non-space character is dropped, fence or not, leaving `strip(body)` |
| `Fences.CleanBareDropsAnyTail` | app.py:81 | after a bare fence any such three-character tail is dropped likewise |
| `Fences.CleanJsonRoundTrip` | app.py:78-79 | cleaning ```` "```json" + body + "```" ```` yields `strip(body)` |
| `Fences.CleanBareRoundTrip` | app.py:80-81 | cleaning ```` "```" + body + "```" ```` yields `strip(body)` whenever the body does not start with `json` |
| `Catalog.IsSupported` | app.py:142 | a category passes the check only when the form carries one and it is a key of the catalog of app.py lines 34-46 |
| `Catalog.SupportedExactly` | app.py:34-46 | the accepted categories are exactly the eleven catalog names, matched as written; a missing field is never accepted |
| `Storage.Flatten` | app.py:155-158 | one row per record, each carrying the call's category, description and units |
| `Storage.FlattenRoundTrip` | app.py:155-158 | dropping the tag columns from the flattened rows gives back the records, in order, with their year, value and notes |
| `Storage.DataFile.constructor` | app.py:31 | before any collection the data file does not exist |
| `Storage.DataFile.Collect` | app.py:136-168 | an unsupported or absent category gives the "valid category" error and leaves the file unchanged, whatever the fetcher would answer; a failed or falsy fetch gives the "failed to collect" error and leaves the file unchanged; a malformed reply fails the request and leaves the file unchanged; a fetched dataset redirects to Analyze and leaves the file holding the old rows (none if it was missing) followed by the flattened records; the old rows are always a prefix of the new |
| `Analysis.Matches` | app.py:178 | a row matches when its category column equals the requested category; a request without the query argument matches no row |
| `Analysis.RowsOf` | app.py:178 | every kept row has the requested category, every row with that category is kept, and nothing else is kept |
| `Analysis.RowsOfAppend` | app.py:178 | the filter of a concatenation is the filter of each part, concatenated: file order is kept |
| `Analysis.RowsOfAll` | app.py:178 | if every row matches, all rows are kept |
| `Analysis.RowsOfNone` | app.py:178 | if no row matches, nothing is kept |
| `Analysis.RowsOfFirst` | app.py:187-188 | the first kept row is the first matching row of the file |
| `Analysis.Analyze` | app.py:172-209 | a missing file gives the error page; "no data" exactly when no row has the requested category; otherwise the view has one point per matching row |
| `Analysis.AnalyzeShowsFirstMatch` | app.py:185-190 | the view has the description and units of the first matching row and the points of all matching rows in file order |
| `Analysis.AnalyzeAfterFirstCollect` | app.py:155-190 | collecting a category the file does not yet hold, then analysing it, shows the collected description, units and records |
| `Analysis.AnalyzeAfterRepeatCollect` | app.py:155-190 | collecting a category again appends the new points after the old ones, but the view keeps the description and units of the oldest row of that category |
| `Analysis.ChartAxes` | app.py:114-115 | the chart gets as many years as values, one per point, and point `k` is `(years[k], values[k])` |

## Left out

- The language-model calls, their prompt text and the analysis fallback string: these are external calls. The fetch is the parameter `fetch` of `Collect`, and the analysis text is not modelled.
- `json.loads` of the cleaned reply: a foreign parser. The fetcher's answer is already classified as failed, falsy, malformed or a dataset.
- pandas CSV reading and writing, and its type inference: the file is modelled as a sequence of rows. A file that exists but is empty, or records lacking `year` or `value` (pandas fills in NaN), are not modelled.
- matplotlib rendering and the base-64 PNG encoding: graphics library code. Only the two lists given to the plot are modelled, and the years stay integers; their `str()` formatting is not modelled.
- Flask routing, templates, redirects, the GET form of Collect, the index page, parsing `years` with `int(...)`, logging, environment loading and directory creation. `years` reaches `Collect` as an integer.
- The hard-coded fallback API key: a credential, not behaviour.
- Concurrent requests writing the data file: there is no locking, and the model is sequential.
- The broad exception handler of Analyze: only its handling of a missing file is modelled, as `ReadError`.
- Floating point: `value` is a `real`, so rounding of stored values is not modelled.

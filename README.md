# LunchWeb order overview, modelled in Dafny

LunchWeb is a small web service. On each request it downloads a spreadsheet
as CSV and finds the row dated today. It then shows who ordered what for
lunch. This project models the two pieces of `main.go` that hold logic:

- **Today's row** (`findRowForToday`, module `TodayRow`). The scan starts
  right after the header row and reads the rows in order. A row whose first
  cell does not parse as a date is skipped. The first row dated today is
  returned. If no row matches, the result is the "no row found for today"
  error. Reading cell 0 of an empty row panics in Go. The model returns that
  panic as its own outcome instead of forbidding empty rows in a
  precondition. "Today" and the date parser are parameters. `Dates.ParseDate`
  is a concrete `YYYY-MM-DD` parser used in the worked example. It is proved
  to be the exact inverse of `Dates.FormatDate`.
- **The order overview** (`OrderOverview`, module `Overview`). The overview
  is never changed after it is built, so it is a datatype. Its constructor
  plays the part of `NewOrderOverview`.
  - `LineItems` is a loop that appends `(name, TrimSpace(order))` for every
    slot with a non-empty name and a non-blank order (`CollectLines`).
    The items are then copied into an array and sorted in place with
    `ByName.Less` and `ByName.Swap` (`SortByName`).
  - `MaxCount` is the number of name slots.
  - `Summary` is a loop that writes `"<name>: <order>\n"` for each line item
    into a buffer.

The supporting module `Strings` models Go's `strings.TrimSpace`. White space
follows `unicode.IsSpace`. The module also models Go's `<` on strings.
Strings are sequences of Unicode scalar values. Comparing them code point by
code point orders them exactly as Go's byte-wise comparison of their UTF-8
encodings does.

A few facts about `main.go` that shape the model:
- Only the order cell is trimmed (main.go:185). The name is compared with
  `""` untrimmed (main.go:186), so a name of a single space still counts.
- `LineItems` reads `o.Orders[i]` for every name slot (main.go:184-185), so
  it needs at least as many order cells as names, not equal lengths.
- `OrderPercent` divides by `MaxCount` with no guard against zero name slots
  (main.go:199).

## Model

| member | source | states |
|---|---|---|
| `TodayRow.FindRowForToday` | main.go:147-163 | The loop over the rows after the header, with its early return and `continue`, ends exactly as the first-match scan `ScanFrom` from row `header + 1` does. A found row is dated today. |
| `TodayRow.ScanFrom` | main.go:151-162 | A found row has a first cell that parses to today. A panic names an empty row inside the scanned range. |
| `TodayRow.ScanFindsFirstMatch` | main.go:151-160 | If row k is dated today and every earlier scanned row has a first cell that is unparseable or names another day, then row k is returned. |
| `TodayRow.ScanFoundIsFirstMatch` | main.go:151-160 | A returned row sits at some index k in the scanned range. It is dated today, and every scanned row before it was passed over. |
| `TodayRow.ScanNotFoundIff` | main.go:151-162 | The "no row found for today" error is returned exactly when every scanned row is non-empty and not dated today. An unparseable row never causes the error by itself. |
| `TodayRow.ScanPanicIff` | main.go:151-152 | The scan panics at row k exactly when row k is empty and every scanned row before it was passed over. |
| `TodayRow.ExampleFirstMatchWins` | main.go:147-163 | The rows 2021-01-01, 2021-01-02, "bad-date" and 2021-01-02 are scanned on 2021-01-02. The first 2021-01-02 row is returned, and the malformed row causes no error. |
| `Dates.ParseDate` | main.go:152 | Every date the parser accepts has a four-digit year, a month from 1 to 12 and a day that exists in that month. |
| `Dates.ParseFormat` | main.go:19 | Every valid date written in the "2006-01-02" layout is parsed back to the same date. |
| `Dates.FormatParse` | main.go:19 | Every string the parser accepts is exactly the layout of the date it yields. |
| `Overview.OrderOverview.MaxCount` | main.go:194-196 | It counts every name slot, including slots without an order. It is never smaller than the number of line items. |
| `Overview.CollectLines` | main.go:183-189 | The filtering loop, which keeps slots in order, yields exactly the specification list `Eligible` of all name slots. |
| `Overview.EligibleMembers` | main.go:184-188 | An item is in the list exactly when some slot i has a non-empty name and a non-empty trimmed order, and the item is `(names[i], TrimSpace(orders[i]))`. |
| `Overview.EligibleWellFormed` | main.go:185-187 | Every kept item has a non-empty name and an order that is non-empty and neither starts nor ends with white space. |
| `Overview.MinByName` | main.go:190 | It returns a position in `a[from..]` such that no item in that range is `ByName.Less` than the item there. |
| `Overview.ByNameSwap` | main.go:216 | It exchanges exactly the two items, so the contents are a permutation of the old contents. |
| `Overview.SortByName` | main.go:190 | Afterwards no item is `Less` by name than an item before it, and the array is a permutation of its old contents. |
| `Overview.OrderOverview.LineItems` | main.go:182-192 | The result is sorted by name and is a permutation of the eligible items, so it has their count, which is at most `MaxCount`. Every item is well formed. |
| `Overview.SortedPermutationUnique` | main.go:190 | The sort is not stable. When no two eligible participants share a name, any two sorted permutations are equal, so `LineItems` is determined. |
| `Overview.OrderOverview.Summary` | main.go:202-211 | The buffer loop writes the `Render` of some valid `LineItems` result. The summary is empty exactly when nobody ordered. |
| `Overview.RenderAppend` | main.go:205-208 | The summary of `a + b` is the summary of `a` followed by the summary of `b`. |
| `Overview.RenderCons` | main.go:205-208 | The summary of `[x] + rest` starts with x's line `"<name>: <order>\n"` and continues with the summary of `rest`. |
| `Overview.RenderEmptyIff` | main.go:202-211 | The summary is the empty string exactly when there are no line items. |
| `Overview.ExampleEligible` | main.go:184-188 | For names Alice, Bob and Carol with orders "BLT", " " and "Soup", Bob is left out because his order is only white space. |
| `Overview.ExampleSummary` | main.go:182-211 | For the same input, every `LineItems` result is Alice then Carol, and the summary is `"Alice: BLT\nCarol: Soup\n"`. |
| `Strings.TrimLeftSpec` | main.go:185 | Trimming on the left keeps a suffix that is empty or starts with a non-space. Everything it drops is white space. |
| `Strings.TrimRightSpec` | main.go:185 | Trimming on the right keeps a prefix that is empty or ends with a non-space. Everything it drops is white space. |
| `Strings.TrimSpaceEdges` | main.go:185-186 | The trimmed order neither starts nor ends with white space. |
| `Strings.TrimSpaceDropsOnlySpace` | main.go:185 | The trimmed order is a contiguous slice of the cell, and only white space lies on either side of it. |
| `Strings.TrimSpaceEmptyIff` | main.go:185-186 | A trimmed order is empty exactly when the cell holds only white space. |
| `Strings.TrimSpaceIdempotent` | main.go:185 | Trimming an already trimmed order changes nothing. |
| `Strings.LessIrreflexive` | main.go:217 | No name is `Less` than itself. |
| `Strings.LessTransitive` | main.go:217 | `Less` on names is transitive. |
| `Strings.LessTotal` | main.go:217 | For any two different names, one is `Less` than the other. |
| `Strings.NotLessTransitive` | main.go:217 | "Not less than" is transitive, which is what sorting by `ByName.Less` relies on. |

## Left out

- The HTTP handler, flag parsing, logging and server start-up (main.go:73-124). This is I/O and process set-up. It includes the handler's `rows[headerIndex]`, and `header[1:]` and `row[1:]`, which build the overview's inputs.
- `CSVFromGoogleSheetsURL` (main.go:127-141). It is a network fetch plus the library CSV reader.
- The HTML template, its rendering and the URL escaping of the mailto body (main.go:30-71, main.go:115).
- `now()` and the time zone (main.go:143-145). Today's date is a parameter of `FindRowForToday`.
- `time.ParseInLocation` (main.go:152). The library parser is not part of this model. `FindRowForToday` takes the parser as a function parameter. `Dates.ParseDate` is a stand-in that accepts exactly four year digits, a dash, two month digits, a dash and two day digits naming a real day. It does not model a signed year or the location.
- The `log.Println` of each unparseable row (main.go:154). This is output only.
- `OrderPercent` (main.go:198-200). It is float32 arithmetic and has no zero guard: with no name slots Go computes 0/0, which is NaN. Its integer numerator is `|LineItems|` and its denominator is `MaxCount`. The `LineItems` and `MaxCount` contracts relate the two.
- The library sort algorithm (main.go:190). A selection sort built only on `ByName.Less` and `ByName.Swap` stands in for it. No claim is made about the relative order of items with equal names.
- The Go panics that `requires` clauses rule out. `FindRowForToday` requires `-1 <= header < |rows|`, which excludes the slice-bounds panic of `rows[(*flagHeader + 1):]` (main.go:151). `LineItems` and `Summary` require `|names| <= |orders|`, which excludes the index panic of `o.Orders[i]` (main.go:185). Both hold at the only call sites: main.go:97 indexes `rows[headerIndex]` before the scan, and the CSV reader rejects rows whose field counts differ. The empty-row panic at main.go:152 is not ruled out; it is modelled as the `RowIndexPanic` outcome.
- `ByName.Len` (main.go:215). It is the array's `Length`.
- Pointer identity of `*OrderOverview` and `*LineItem`. Both are modelled as values because nothing mutates them after construction.
- `bytes.Buffer` and `fmt.Sprintf("%v: %v\n")` (main.go:203-210). For string arguments these are plain concatenation, which is how the model writes them.
- Strings that are not valid UTF-8. Cells are sequences of Unicode scalar values.
- `Strings.TrimSpace`: its own contract only bounds the result's length. What trimming does is stated by `TrimSpaceEdges`, `TrimSpaceDropsOnlySpace`, `TrimSpaceEmptyIff` and `TrimSpaceIdempotent`.

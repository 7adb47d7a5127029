# Hiking log — a verified model of the record store and its statistics

The application keeps a personal log of mountain hikes. Each record is
either a mountain already climbed (`Completed`) or one on the wish list
(`Wish`). The model covers four parts:

- **Record store** (`app.dfy`). The `records` state of the root component is
  modelled as `App.RecordStore`, with its copy in browser storage kept beside
  it. Three updaters change it: add puts a record in front, delete filters
  out an id, and toggle flips the status of an id. The store also covers the
  choice of initial records at start-up and the legend counts on the map tab.
- **List tab** (`hike_list.dfy`). The "all", "completed" and "wish" filter
  buttons, and the image a card shows (`Types.ImageOrPlaceholder`).
- **New-record form** (`hike_form.dfy`). `HikeForm.HikeForm` holds the form
  state: the initial values, one setter per input, and the two status
  buttons. Submitting builds a record with `HikeForm.BuildRecord`, which
  includes the `parseInt(…) || 0` conversion of the elevation.
- **Statistics tab** (`statistics.dfy`). This covers:
  - total, average and highest elevation of the completed hikes;
  - the per-month histogram, built by a counting loop followed by a
    name-ordered sort;
  - the two-slice pie chart.

Supporting modules:

- `sequences.dfy`: `Array.prototype.filter` and its laws.
- `strings.dfy`: `split`/`join` and the order used for sorting names.
- `numbers.dfy`: `parseInt` without a radix, decimal rendering, and
  `Math.round` of an integer quotient.

Calls into the environment are parameters, so every function stays pure:

- the current ISO timestamp;
- the new record's id (`Date.now().toString()`);
- `JSON.parse` of the saved text;
- `parseFloat`.

## Model

| member | source | states |
|---|---|---|
| Types.Flipped | App.tsx:57 | toggling always yields the other status |
| Types.WithStatus | components/Statistics.tsx:12 | exactly the records with the given status are kept, every copy of each, in their original order (a subsequence) |
| Types.StatusPartition | types.ts:2-5 | every record is in exactly one of the two status views: their sizes add up to the number of records |
| Types.PlaceholderImage | components/HikeList.tsx:48 | the picsum template around the name: the URL starts with the picsum seed prefix, the mountain name follows it, and more (the size) comes after |
| Types.PlaceholderInjective | components/HikeList.tsx:48 | different mountain names give different placeholder URLs |
| Types.ImageOrPlaceholder | components/HikeList.tsx:48 | the picture shown is never empty; it is the stored image when one is present and non-empty, and otherwise the placeholder (also used at App.tsx:188 with 800/600) |
| App.Added | App.tsx:46-47 | the new record comes first and the old records follow unchanged |
| App.Deleted | App.tsx:51-52 | the result holds exactly the old records whose id differs, with as many copies of each as before, in their original order; no record with the id survives |
| App.ToggledRecord | App.tsx:57 | the record is unchanged apart from its status, and the status changes exactly when the id matches |
| App.DeleteAbsentIsNoOp | App.tsx:51-52 | deleting an id that no record carries leaves the records unchanged |
| App.DeleteIdempotent | App.tsx:51-52 | deleting the same id twice is the same as deleting it once |
| App.Toggled | App.tsx:55-58 | same length and same ids in the same places; records differ only in status, and a status changes exactly when the id matches |
| App.ToggleTwice | App.tsx:55-58 | toggling the same id twice restores the original records |
| App.SeedRecords | App.tsx:14-35 | the two first-use examples: id "1" completed, then id "2" on the wish list |
| App.InitialRecords | App.tsx:12-14 | nothing saved (or an empty string) gives the seed; valid saved text gives what it decodes to; malformed saved text is a start-up error, not the seed |
| App.LegendCounts | App.tsx:116-120 | the legend shows the sizes of the completed and wish views, and they add up to the number of records |
| App.AddRaisesLegend | App.tsx:46-47 | adding a record raises the legend count of its own status by one and leaves the other count unchanged |
| App.AddedWithStatus | App.tsx:46-47 | after an add, the records of the new record's status number one more, and those of any other status stay as many |
| App.RecordStore.constructor | App.tsx:42-44 | the store starts with the initial records, and storage holds the same records |
| App.RecordStore.AddRecord | App.tsx:42-48 | records become `Added(old records, record)`, and storage mirrors them again |
| App.RecordStore.DeleteRecord | App.tsx:51-53 | records become `Deleted(old records, id)`, and storage mirrors them again |
| App.RecordStore.ToggleStatus | App.tsx:55-59 | records become `Toggled(old records, id)`, and storage mirrors them again |
| HikeList.FilteredRecords | components/HikeList.tsx:15-19 | "all" shows every record; "completed" and "wish" show exactly the records with that status; the result is always a subsequence of the records |
| HikeList.Keeps | components/HikeList.tsx:15-19 | the "all" callback accepts every record; the "completed" and "wish" callbacks agree with the status test used by the statistics |
| HikeList.FilteredLengths | components/HikeList.tsx:15-19 | the "completed" and "wish" views together have as many cards as "all" |
| HikeForm.DatePart | components/HikeForm.tsx:15 | the default date is a prefix of the ISO timestamp and contains no "T" |
| HikeForm.DatePartOfTimestamp | components/HikeForm.tsx:15 | the date default is the calendar day before the "T" of the ISO timestamp |
| HikeForm.InitialForm | components/HikeForm.tsx:12-20 | the form starts empty except for the UTC calendar day of `now` (what `toISOString` gives), status completed, and the coordinates "37.5"/"127.0" |
| HikeForm.HikeForm.constructor | components/HikeForm.tsx:12-20 | the form state starts as `InitialForm(now)` |
| HikeForm.ElevationFromText | components/HikeForm.tsx:27 | the elevation is 0 exactly when `parseInt` gives NaN or 0, and any other elevation is the number `parseInt` read |
| HikeForm.ElevationOfNumber | components/HikeForm.tsx:27 | typing the decimal form of an integer stores that integer |
| HikeForm.ElevationWithoutDigits | components/HikeForm.tsx:27 | text with no digit (NaN) stores elevation 0 |
| HikeForm.BuildRecord | components/HikeForm.tsx:24-36 | the record carries the form's name, date, description and status, the parsed elevation and coordinates, and the given id; it has no rating and has the 600×400 placeholder image |
| HikeForm.BuiltRecordShowsPlaceholder | components/HikeForm.tsx:35 | a newly built record shows its placeholder picture in the list |
| HikeForm.HikeForm.SetMountainName | components/HikeForm.tsx:61 | only the mountain name changes |
| HikeForm.HikeForm.SetElevation | components/HikeForm.tsx:74 | only the elevation text changes |
| HikeForm.HikeForm.SetDate | components/HikeForm.tsx:83 | only the date changes |
| HikeForm.HikeForm.SetLat | components/HikeForm.tsx:95 | only the latitude text changes |
| HikeForm.HikeForm.SetLng | components/HikeForm.tsx:104 | only the longitude text changes |
| HikeForm.HikeForm.SetDescription | components/HikeForm.tsx:144 | only the description changes |
| HikeForm.HikeForm.ChooseCompleted | components/HikeForm.tsx:114 | only the status changes, to completed |
| HikeForm.HikeForm.ChooseWish | components/HikeForm.tsx:125 | only the status changes, to wish |
| HikeForm.HikeForm.Submit | components/HikeForm.tsx:22-37 | an empty mountain name (the `required` input at line 56) submits nothing; otherwise exactly `BuildRecord` of the current form is submitted |
| Numbers.ParseInt | components/HikeForm.tsx:27 | `parseInt` yields a number only when the text holds a decimal digit |
| Numbers.ParseIntOfDecimal | components/HikeForm.tsx:27 | `parseInt` reads back any integer's decimal rendering, whatever follows it, unless that starts with a digit, "x" or "X" |
| Numbers.ParseIntSkipsWhiteSpace | components/HikeForm.tsx:27 | leading white space does not change what `parseInt` reads |
| Numbers.ParseIntWithoutDigits | components/HikeForm.tsx:27 | text without a decimal digit is NaN |
| Numbers.RoundedQuotient | components/Statistics.tsx:16 | the result is within one half of `total / count`, rounding halves up as `Math.round` does |
| Statistics.TotalElevation | components/Statistics.tsx:15 | the empty sum is 0; with non-negative elevations the total is non-negative and at least each hike's elevation |
| Statistics.TotalConcat | components/Statistics.tsx:15 | the total elevation of two lists joined is the sum of their totals |
| Statistics.TotalAtMost | components/Statistics.tsx:15 | the total is at most the number of hikes times any bound on their elevations |
| Statistics.HighestElevation | components/Statistics.tsx:17 | the result is at least every hike's elevation and is the elevation of some hike |
| Statistics.MaxPeak | components/Statistics.tsx:17 | 0 with no completed hike; otherwise the highest elevation among them |
| Statistics.AverageElevation | components/Statistics.tsx:16 | 0 with no completed hike; otherwise the total divided by the count, rounded to the nearest integer |
| Statistics.AverageAtMostMax | components/Statistics.tsx:16-17 | the average card never exceeds the highest-peak card |
| Statistics.WishRecordsDoNotCount | components/Statistics.tsx:12 | inserting a wish-list record anywhere leaves the completed hikes, and so the four cards and the monthly chart, unchanged |
| Statistics.WishGrowsPie | components/Statistics.tsx:33-36 | inserting a wish-list record leaves the completed slice unchanged and grows the other slice by one |
| Statistics.MonthKey | components/Statistics.tsx:22 | the month key is a prefix of the date |
| Statistics.MonthKeyOfIsoDate | components/Statistics.tsx:22 | the key of "YYYY-MM-DD" is "YYYY-MM" |
| Statistics.MonthKeyWithoutDash | components/Statistics.tsx:22 | a date with no dash is its own key |
| Statistics.CountMonth | components/Statistics.tsx:21-23 | a month's count is positive exactly when some hike falls in that month |
| Statistics.CountByMonth | components/Statistics.tsx:20-24 | the map has one key per month that occurs, and each value is that month's number of hikes |
| Statistics.InsertByName | components/Statistics.tsx:28 | inserting one new bar keeps the chart in strictly ascending name order and adds exactly that bar |
| Statistics.SortedEntries | components/Statistics.tsx:26-28 | the chart has one bar per map entry with its count, in strictly ascending name order, whatever order the entries are visited in |
| Statistics.MonthlyChart | components/Statistics.tsx:20-28 | the chart has one bar per month that occurs, with that month's count, in ascending name order |
| Statistics.ChartTotals | components/Statistics.tsx:20-28 | every bar is positive, and the bars add up to the number of completed hikes |
| Statistics.ChartIsDetermined | components/Statistics.tsx:26-28 | the chart is unique: two charts satisfying the chart property for the same hikes are equal |
| Statistics.ChartExample | components/Statistics.tsx:20-28 | hikes on 2024-03-15, 2024-03-20 and 2024-05-10 give the bars ("2024-03", 2) then ("2024-05", 1) |
| Statistics.ComputeStats | components/Statistics.tsx:14-31 | each card is computed over the completed hikes only, and the chart is the monthly chart of those hikes |
| Statistics.PieData | components/Statistics.tsx:33-36 | two slices: completed count, then the remaining records, which is exactly the wish count; together they cover every record |
| Sequences.Filter | App.tsx:52 | `Array.prototype.filter`: never longer than the input, and an element is in the result exactly when it is in the input and passes the test |
| Strings.Split | components/Statistics.tsx:22 | `split` with a one-character separator: at least one part, and no part contains the separator |
| Strings.Join | components/Statistics.tsx:22 | `join`: the joined text starts with the first part |
| Strings.JoinPrefix | components/Statistics.tsx:22 | joining the first fields gives a prefix of joining all of them, which is what `slice(0, 2)` before `join` relies on |
| Strings.JoinSplit | components/Statistics.tsx:22 | joining the pieces of a split with the same separator restores the text |
| Strings.SplitJoin | components/Statistics.tsx:22 | splitting a join of separator-free pieces gives back the pieces |
| Strings.LessTotal | components/Statistics.tsx:28 | any two different names are ordered one way or the other |
| Strings.LessTransitive | components/Statistics.tsx:28 | the name order is transitive |
| Strings.LessAsymmetric | components/Statistics.tsx:28 | the name order is asymmetric |
| Sequences.FilterMultiset | App.tsx:52 | filtering keeps every copy of an element that passes the test and no copy of one that fails |
| Sequences.FilterConcat | components/Statistics.tsx:12 | filtering distributes over concatenation |
| Sequences.FilterIdempotent | App.tsx:52 | filtering twice with the same test is filtering once |

## Left out

- The map tab (components/MountainMap.tsx) is not part of this model. It only renders markers with Leaflet.
- The insight service (services/geminiService.ts) is not part of this model. It is a network call to a language model. `MountainInfo` is declared only as a type.
- Browser storage and JSON: `JSON.parse` is the `parse` parameter of `App.InitialRecords`. `JSON.stringify` is not modelled: `RecordStore` keeps the records themselves as the persisted copy.
- App.InitialRecords: saved text that is well-formed JSON but not an array of records is passed through as whatever `parse` returns. The model does not check record shapes.
- `parseFloat` of the coordinates is a parameter. NaN coordinates are not modelled.
- Elevations are whole numbers. Fractional elevations from saved data are not modelled.
- Results beyond 2^53 are not modelled. This applies to `parseInt` results and to `totalElevation / count`, which components/HikeForm.tsx and components/Statistics.tsx compute in double precision.
- `Date.now()` and `new Date().toISOString()` are parameters: the record id and the timestamp string.
- Ids are not unique in general. Two submissions in the same millisecond share an id, and delete and toggle then act on both. The model proves nothing about uniqueness.
- Statistics.SortedEntries: `localeCompare` is modelled as code-point lexicographic order. This agrees with it on the "YYYY-MM" keys the form produces, not on arbitrary locale-sensitive text.
- Statistics.CountByMonth: keys inherited from `Object.prototype` (such as "constructor") are not modelled. The map starts empty.
- Tabs, the selected-record modal, the form's open/close state, and React's scheduling (`useMemo`, `useEffect`) are not modelled. All rendering is left out too.
- App.InitialRecords: a start-up that cannot parse the saved text is reported as a `Failure`, since `JSON.parse` throws there and App.tsx:14 does not catch it. A fail-soft fallback to the seed would contradict the code.

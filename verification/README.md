# Crypto market dashboard: verified model of the view logic

This project is a Dafny model of the deterministic core of a cryptocurrency market dashboard. The model covers three parts:

- **Market-assets table** (`Table.dfy`). The ticker list is filtered by a case-insensitive substring of the symbol, sorted by symbol in either direction, and cut into pages of ten rows. Three pieces of UI state drive it: the search term, the current page and the sort direction. The filter, sort and page slice are pure functions. The state is the class `Table.TableView`, whose methods are the component's four event handlers: the sort button, the search box, Previous and Next.
- **Currency formatter** (`Format.dfy`). `formatNumber` picks a branch and prints "$0.00" for NaN and zero. Otherwise it prints a B, M or K suffix on the scaled value, eight decimals with trailing zeros stripped for values strictly between -0.01 and 0.01, or two decimals. The `/\.?0+$/` strip is modelled with the leftmost-match semantics of regular-expression search.
- **Market-data client** (`MarketData.dfy`). This covers the URL of the 24-hour ticker request and the klines query: `symbol`, then `interval`, then each truthy optional argument in a fixed order. It also covers the URL of the klines request and the positional decoding of each 12-element candle record into named fields.

`Text.dfy` holds the string operations these parts use: ASCII lower-casing, `includes`, a lexicographic comparison and integer `toString` with its inverse. `Js.dfy` holds JavaScript numbers and JSON values. `Wrappers.dfy` holds `Option`.

Parts of the JavaScript standard library are parameters of the model:

- `parseFloat`.
- The digit generation of `toFixed` for a finite value.
- The string/number conversions inside `Number()` and `String()`.
- `URLSearchParams` serialisation.

So every property below holds for every implementation of those parameters.

The thresholds compare the **signed** value, as the code does, and not its magnitude. A negative value therefore never gets a suffix (`Format.NegativeNeverSuffixed`).

## Model

| member | source | states |
|---|---|---|
| `Text.Lower` | app/components/table.tsx:16 | lower-casing keeps the length and maps each character on its own |
| `Text.LowerIdempotent` | app/components/table.tsx:16 | lower-casing an already lower-cased string changes nothing |
| `Text.IncludesIff` | app/components/table.tsx:16 | `includes` holds exactly when the term occurs at some position of the symbol |
| `Text.Includes` | app/components/table.tsx:16 | `String.prototype.includes`, trying each start position from the left; a term longer than the symbol never matches |
| `Text.CompareAntisymmetric` | app/components/table.tsx:19-25 | swapping the two symbols negates the comparison, so the descending comparator is the ascending one reversed |
| `Text.CompareTransitive` | app/components/table.tsx:19-25 | "sorts no later than" is transitive, so the comparator is a consistent order |
| `Text.CompareIsLexicographic` | app/components/table.tsx:19-25 | the comparison is negative exactly when the first symbol is lexicographically smaller (prefix or first differing character smaller) |
| `Text.Compare` | app/components/table.tsx:21-23 | the three-way comparison standing in for `localeCompare`: -1, 0 or 1, and 0 exactly when the two strings are equal |
| `Text.IntToStringRoundTrip` | app/lib/binanceAPI.ts:26-28 | an integer's `toString()` parses back to the same integer |
| `Text.IntToStringInjective` | app/lib/binanceAPI.ts:26-28 | distinct numeric arguments give distinct query values |
| `Text.IntToString` | app/lib/binanceAPI.ts:26-28 | `toString()` of an integer: at least one character, with a leading '-' exactly for negative integers |
| `Table.Filter` | app/components/table.tsx:15-17 | `data.filter(...)`: never longer than the input, and every item kept matches the term |
| `Table.FilterCount` | app/components/table.tsx:15-17 | the filtered list holds each matching ticker as often as the input does and no other ticker |
| `Table.FilterMembership` | app/components/table.tsx:15-17 | a ticker is in the filtered list iff it is in the input and its lower-cased symbol contains the lower-cased term |
| `Table.FilterIdempotent` | app/components/table.tsx:15-17 | filtering twice with one term equals filtering once |
| `Table.FilterEmptyTerm` | app/components/table.tsx:15-17 | the empty term keeps every ticker in its order |
| `Table.MatchesIgnoresTermCase` | app/components/table.tsx:16 | the term's letter case does not change which tickers match |
| `Table.Cmp` | app/components/table.tsx:19-25 | the comparator for one direction: -1, 0 or 1, and 0 exactly when the two symbols are equal |
| `Table.SortBy` | app/components/table.tsx:19 | `filtered.sort(...)` as a stable insertion sort: the result has the input's length |
| `Table.SortPermutation` | app/components/table.tsx:19-25 | the sorted list is a permutation of the filtered list |
| `Table.SortSorted` | app/components/table.tsx:19-25 | the sorted list is ordered by the direction's comparator at every pair of positions |
| `Table.SortedOrder` | app/components/table.tsx:19-25 | ascending never puts a symbol after a lexicographically smaller one; descending never before one |
| `Table.SortStable` | app/components/table.tsx:19-25 | the sort is stable: for every symbol, the items with that symbol appear in the same order as in the input |
| `Table.SortedPermutationUnique` | app/components/table.tsx:19-25 | with distinct symbols, only one permutation is sorted, so the engine's sort algorithm does not matter |
| `Table.DistinctSymbolsPermutation` | app/components/table.tsx:19 | reordering a list keeps its symbols distinct |
| `Table.FilterDistinct` | app/components/table.tsx:15-17 | filtering keeps symbols distinct |
| `Table.FilteredDataCorrect` | app/components/table.tsx:14-26 | `filteredData` is a permutation of the filter result, counts each ticker as the filter does, is sorted in the chosen direction, and keeps tickers that share a symbol in filter order |
| `Table.FilteredData` | app/components/table.tsx:14-26 | the memoised filter-then-sort pipeline: never longer than the data |
| `Table.ToggleReverses` | app/components/table.tsx:19-25 | with distinct symbols the descending list is the ascending list reversed |
| `Table.SearchExample` | app/components/table.tsx:14-26 | searching "btc" in [BTCUSDT, ETHUSDT] leaves only BTCUSDT |
| `Table.ToggleExample` | app/components/table.tsx:19-25 | with no term, ascending gives [BTCUSDT, ETHUSDT] and descending gives [ETHUSDT, BTCUSDT] |
| `Table.TotalPages` | app/components/table.tsx:28 | the page count is the ceiling of the length over 10 |
| `Table.Slice` | app/components/table.tsx:31 | `slice(start, end)` with JavaScript's index clipping: never longer than the list, the plain subsequence for in-range indices, empty when the end is not after the start |
| `Table.Page` | app/components/table.tsx:29-31 | `currentData` for a page number: at most ten rows, for every page number |
| `Table.PageIsWindow` | app/components/table.tsx:29-31 | page p is the contiguous slice from (p-1)*10 to (p-1)*10+10 clipped to the list, at most ten rows |
| `Table.PageNonEmptyIff` | app/components/table.tsx:28-31 | a page from 1 on has rows iff it is at most the page count |
| `Table.PagesCoverList` | app/components/table.tsx:28-31 | pages 1 to the page count, concatenated, are the whole list: every row once, in order |
| `Table.RangeLabel` | app/components/table.tsx:169 | the footer bounds "first-last": the last never exceeds the list length, and the label spans at most ten rows |
| `Table.RangeLabelDescribesPage` | app/components/table.tsx:169 | on a page with rows, the label's bounds are the 1-based positions of its first and last row |
| `Table.Body` | app/components/table.tsx:95-104 | the body is "No crypto found" iff the filtered list is empty; otherwise at most ten rows, and some rows on any in-range page |
| `Table.PreviousPage` | app/components/table.tsx:174 | the Previous updater: never below 1, at most one page back, and never forward from a valid page |
| `Table.NextPage` | app/components/table.tsx:182 | the Next updater: never past the page count, at most one page forward, and exactly one forward below the page count |
| `Table.PageMovesStayInRange` | app/components/table.tsx:173-188 | Previous never goes below 1 and steps back one when above 1; an enabled Next steps forward one and never passes the page count |
| `Table.UnguardedNextOnEmptyList` | app/components/table.tsx:182-184 | on an empty list the Next updater alone would move to page 0, so the disabled guard is what keeps the page at least 1 |
| `Table.TableView.constructor` | app/components/table.tsx:9-12 | initial state is empty term, page 1 and ascending, showing the whole list sorted |
| `Table.TableView.HandleSort` | app/components/table.tsx:33-36 | flips the direction, resets the page to 1, keeps the term, and keeps the state valid |
| `Table.TableView.OnSearchChange` | app/components/table.tsx:49-52 | sets the term, resets the page to 1, keeps the direction, and keeps the state valid |
| `Table.TableView.ClickPrevious` | app/components/table.tsx:173-179 | when enabled, moves to max(1, p-1), one page back; when disabled, nothing changes; the list and the page's validity are kept |
| `Table.TableView.ClickNext` | app/components/table.tsx:180-188 | when enabled, moves to min(totalPages, p+1), one page on; when disabled, nothing changes; validity is kept and a non-empty list shows rows |
| `Format.StripTrailingZeros` | app/lib/utils.ts:29 | the result is a prefix of the input; the cut tail matches `\.?0+`; no earlier position matches (leftmost match); with no match the input is unchanged |
| `Format.StripDetermined` | app/lib/utils.ts:29 | the regular-expression contract has exactly one solution |
| `Format.StripKeepsSignificantDigits` | app/lib/utils.ts:28-30 | "0.00500000" strips to "0.005" |
| `Format.StripAllZeroFraction` | app/lib/utils.ts:28-30 | "0.00000000" strips to "0", losing the point as well |
| `Format.SelectBranch` | app/lib/utils.ts:13-38 | the guard chain in source order: invalid exactly for NaN, zero exactly for 0, and a suffix only for values of at least 1000 (intervals in `Format.BranchIntervals`) |
| `Format.FormatNumber` | app/lib/utils.ts:9-39 | every output begins with "$" |
| `Format.BranchIntervals` | app/lib/utils.ts:13-38 | each finite value takes exactly the branch whose interval holds it: zero; [1e9, ∞) for B; [1e6, 1e9) for M; [1e3, 1e6) for K; (0, 0.01) and (-0.01, 0) for the 8-decimal branches; the rest for 2 decimals |
| `Format.ToValue` | app/lib/utils.ts:10 | a string argument goes through `parseFloat` and a number is used as it is; what then prints is stated by `Format.NaNAndZeroPrintZero` and `Format.ThresholdExamples` |
| `Format.NaNAndZeroPrintZero` | app/lib/utils.ts:10-16 | NaN, including an unparseable string, and zero print "$0.00" |
| `Format.NegativeNeverSuffixed` | app/lib/utils.ts:19-35 | a negative value never gets K, M or B; it prints with 8 stripped decimals above -0.01 and with 2 decimals otherwise |
| `Format.SuffixMantissaRange` | app/lib/utils.ts:19-25 | the scaled value given to `toFixed` lies in [1, 1000) for K and M, and is at least 1 for B |
| `Format.BranchMonotone` | app/lib/utils.ts:19-38 | a larger positive value never takes a smaller branch |
| `Format.SubCentIsStrippedRendering` | app/lib/utils.ts:28-35 | for 0 < abs(v) < 0.01 the digits printed are a prefix of the 8-decimal rendering, and the cut tail is an optional '.' and then only '0's |
| `Format.InfinitiesPrint` | app/lib/utils.ts:19-38 | Infinity prints "$InfinityB" and -Infinity prints "$-Infinity" |
| `Format.ThresholdExamples` | app/lib/utils.ts:19-38 | 999 takes two decimals, 1000 prints as 1 with K, and the string "1500000000" prints as 1.5 with B |
| `MarketData.TickerUrl` | app/lib/binanceAPI.ts:5-8 | the URL `getTicker24hr` fetches; its properties are stated by `MarketData.TickerUrlRoundTrip` |
| `MarketData.TickerUrlRoundTrip` | app/lib/binanceAPI.ts:5-8 | the URL is the ticker endpoint, with a `symbol` query iff the argument is truthy, and that query reads back as the argument |
| `MarketData.KlinesQuery` | app/lib/binanceAPI.ts:21-28 | the query `getKlines` builds, as ordered pairs; its order and read-back are stated by `MarketData.KlinesQueryOrder` and `MarketData.KlinesQueryReadBack` |
| `MarketData.KlinesParams` | app/lib/binanceAPI.ts:21-28 | the appended parameters are the klines query: symbol, interval, then each truthy optional argument |
| `MarketData.KlinesQueryOrder` | app/lib/binanceAPI.ts:21-28 | the query starts with symbol and then interval; every later key comes later in the order symbol, interval, startTime, endTime, limit; no key repeats |
| `MarketData.KlinesQueryReadBack` | app/lib/binanceAPI.ts:21-28 | reading the query back gives the symbol, the interval, and each optional number iff it was truthy (undefined and 0 are omitted) |
| `MarketData.KlinesUrl` | app/lib/binanceAPI.ts:30 | the request URL from a parameter list; stated by `MarketData.KlinesRequestUrl` |
| `MarketData.KlinesRequestUrl` | app/lib/binanceAPI.ts:21-30 | the URL is the klines endpoint, then '?', then the serialised query |
| `MarketData.DecodeKline` | app/lib/binanceAPI.ts:32-44 | the `map` callback reading fields by fixed position 0 to 11; stated by `MarketData.DecodeEncode`, `MarketData.EncodeDecode` and `MarketData.ShortRecordFields` |
| `MarketData.DecodeKlines` | app/lib/binanceAPI.ts:32-45 | one candle per record, with the same length and order |
| `MarketData.DecodeEncode` | app/lib/binanceAPI.ts:32-45 | decoding a candle's wire record (openTime at 0 … ignore at 11) gives the candle back, for any coercions |
| `MarketData.EncodeDecode` | app/lib/binanceAPI.ts:32-45 | a well-typed record's first twelve elements are exactly the wire record of its decoding, so each field is read from its fixed index |
| `MarketData.DecodeKlinesRoundTrip` | app/lib/binanceAPI.ts:32-45 | decoding the wire form of a candle list gives the same list |
| `MarketData.ShortRecordFields` | app/lib/binanceAPI.ts:32-45 | every position from the end of a short record up to 11 reads as `undefined`, so each missing text field decodes to "undefined" and each missing numeric field to NaN |

## Left out

- Network I/O: `fetch` and `.json()` (app/lib/binanceAPI.ts:10,30) are not modelled. A ticker response is passed through unchanged, and a klines response is an input list of records whose elements are already typed as numbers or strings (JSON `null`, booleans, arrays and objects are not modelled).
- `URLSearchParams` percent-encoding (the application/x-www-form-urlencoded serializer, section 5.2 of the WHATWG URL Standard) is the parameter `serialize`. The query is modelled as an ordered list of key/value pairs.
- `localeCompare` is modelled as lexicographic order by character code, and `toLowerCase` as ASCII lower-casing. Locale collation and Unicode case mapping are not modelled; this is an assumption of the model.
- `Array.prototype.sort` is modelled as a stable insertion sort on values. It sorts, in place, the fresh array that `filter` returns. That in-place update is not modelled. The input list is a constant of `Table.TableView`, so it is unchanged by construction. Which stable algorithm the engine uses does not matter when symbols are distinct (`Table.SortedPermutationUnique`).
- `parseFloat` and the digit generation of `toFixed` are parameters. Finite numbers are exact reals, so the floating-point rounding of `value / 1e9` and similar divisions is not modelled.
- The numeric arguments of `getKlines` are integers (`Option<int>`), and `toString` is their decimal rendering. NaN, which is also falsy, fractional values and exponent notation (from 1e21 up) are not modelled.
- Format.SuffixMantissaRange: bounds the value handed to `toFixed`, not the printed mantissa. `toFixed` rounds, so a value from 999995 up to 1e6 prints "$1000.00K" (and the same at the M boundary); the digits `toFixed` prints are the parameter `render`, which the model leaves uninterpreted.
- The string-to-number and number-to-string halves of `Number()` and `String()` in the candle decoder are parameters.
- React's state updates from one handler are applied together. `useMemo` caching is not modelled: the derived list is a function of the state.
- Row rendering in app/components/table.tsx:104-160 is presentation and is not modelled: the `USDT`-stripped name, the sign colour, `toLocaleString`, `toFixed(1)` and the `* 1.5` market-cap figure.
- app/components/price-chart.tsx is not part of this model: the effect, the delayed fetch, the loading flag and the timeframe table. Nor are app/components/stats-cards.tsx, sidebar.tsx, error.tsx, loader.tsx and the page files, which are markup and wiring.

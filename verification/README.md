# Crypto tracker: a Dafny model of its logic

The crypto tracker is a mobile web front end. It polls a market-data API for the top
cryptocurrencies, shows them as a searchable list and offers a currency converter.
Almost all of it is view markup. This project models the four places that hold
pure, sequential logic, and proves properties about them:

- **Formatting helpers** (`src/utils/formatters.ts`), in `formatters.dfy`:
  - the number-input sanitiser
  - text truncation
  - rank ordinals
  - time-ago buckets
  - error-message rewriting
  - the price-change classifier
- **The refresh controller** (`src/hooks/useCryptoData.ts`), in `refresh_controller.dfy`.
  It is a transition system over the four pieces of hook state: `cryptos`, `loading`,
  `error` and `isRefreshing`.
  - `fetchData` is split at its `await` into a `Start(showRefreshing)` event and a
    `Succeed(data)` or `Fail(failure)` completion.
  - Mounting and `retryFetch` issue `Start(false)`.
  - The 30-second interval and `refreshData` issue `Start(true)`.
  - Any interleaving of these events is a trace, and `Run` folds a trace over the state.
- **The market list selection** (`src/components/home/HomePage.tsx`), in `home_page.dfy`:
  - the search filter
  - the gainers/losers counts
  - which sections of the page render
- **The converter rules** (`src/components/converter/CryptoConverter.tsx`), in
  `converter.dfy`:
  - price lookup
  - the guarded result update
  - the conversion ratio
  - the swap
  - re-running the conversion when a refresh delivers a new list

`app.dfy` follows controller traces through to the sections the screen renders, as
`src/App.tsx` wires them together. `text.dfy` holds ASCII lower-casing, substring
search and decimal rendering. `seqs.dfy` holds an order-preserving filter (`Array.filter`).
`crypto.dfy` holds the market entry record, restricted to the fields the logic reads.

Three behaviours of the code a reader might not expect:

- A currency that is missing from the list prices at 0. The converter's guard then keeps
  the previous result on screen; it does not show 0 (`Converter.UnknownCurrencyKeepsResult`).
- `retryFetch` raises `loading` again after the first load has settled
  (`RefreshController.RetryRaisesLoadingAgain`). So "loading" is not only the very
  first load.
- The error panel is guarded by JavaScript truthiness. An `Error` with an empty message
  therefore shows no panel and leaves the list visible (`HomePage.ErrorHidesData`).

## Model

| member | source | states |
|---|---|---|
| `Formatters.SanitizeNumberInput` | src/utils/formatters.ts:234-245 | the output holds only digits and dots, at most one dot. It equals the input with non-number characters removed and every dot after the first removed. The input's digits survive, in order |
| `Formatters.SplitJoinKeepsFirstDot` | src/utils/formatters.ts:239-241 | splitting at the dots and joining every piece but the first without dots, behind one dot, keeps the first dot and drops the rest |
| `Formatters.SanitizeKeepsCleanInput` | src/utils/formatters.ts:239-244 | a text of digits with at most one dot is returned unchanged |
| `Formatters.SanitizeIdempotent` | src/utils/formatters.ts:234-245 | sanitising a sanitised text changes nothing |
| `Formatters.TruncateText` | src/utils/formatters.ts:167-172 | an empty text, or one no longer than the limit, is returned as is. A longer one becomes a prefix of the text plus "...", exactly `maxLength` long when the limit is at least 3, otherwise just "..." |
| `Formatters.FormatRank` | src/utils/formatters.ts:153-162 | "N/A" exactly for ranks ≤ 0. Otherwise the text before the suffix is the rank's plain decimal rendering (no padding) and reads back as the rank, and the suffix is "st", "nd" or "rd" exactly for 1, 2 and 3, and "th" for every rank from 4 on |
| `Formatters.FormatRankMissesTwentyFirst` | src/utils/formatters.ts:158-161 | ranks 21, 22 and 23 come out as "21th", "22th" and "23th" |
| `Formatters.EnglishOrdinalRank` | src/utils/formatters.ts:153-162 | corrected rank formatting: "N/A" exactly for ranks ≤ 0. Otherwise the decimal digits of the rank followed by a two-letter suffix |
| `Formatters.EnglishOrdinalFollowsDigits` | src/utils/formatters.ts:158-161 | in the corrected version, the suffix is read off the rendered digits: "st", "nd" or "rd" for a last digit of 1, 2 or 3 unless the tens digit is 1, and "th" otherwise |
| `Formatters.EnglishOrdinalAgreesUpToTwenty` | src/utils/formatters.ts:153-162 | the written and the corrected rank formatting agree on every rank up to 20 |
| `Formatters.ElapsedSeconds` | src/utils/formatters.ts:132-134 | the elapsed time in whole seconds, rounded toward negative infinity: `secs*1000 ≤ now - time < secs*1000 + 1000` |
| `Formatters.AgoBucket` | src/utils/formatters.ts:136-147 | under 60 s (negative included) is "just now". Under an hour gives minutes in 1..59, under a day gives hours in 1..23, otherwise days ≥ 1, each count being the whole units elapsed |
| `Formatters.FormatTimeAgo` | src/utils/formatters.ts:131-148 | with the current time passed in: "Just now" exactly below 60 s. The text ends in "m ago", "h ago" or "d ago" exactly for the minute, hour and day ranges. The count before the unit has no leading zero and is the number of whole minutes, hours or days elapsed |
| `Formatters.FormatErrorMessage` | src/utils/formatters.ts:258-276 | the keywords "fetch", "404", "500", "Network" are tried in that order and the first present picks the friendly text. A keyword-free message passes through, or becomes the generic text when empty; the result is never empty |
| `Formatters.FormatPriceChange` | src/utils/formatters.ts:177-197 | the icon is neutral, up or down exactly when the value is zero, positive or negative. `isPositive` holds exactly for up, and both colours are determined by the icon |
| `Text.Includes` | src/components/home/HomePage.tsx:195-196 | `includes` is true exactly when the needle occurs at some position of the text (the empty needle always does) |
| `Text.DecimalRoundTrip` | src/utils/formatters.ts:161 | the decimal rendering of a number reads back as that number |
| `RefreshController.BeginFetch` | src/hooks/useCryptoData.ts:12-16 | a background start raises `isRefreshing` and leaves `loading`. A foreground start raises `loading` and leaves `isRefreshing`. Both clear the error and keep the list |
| `RefreshController.CompleteSuccess` | src/hooks/useCryptoData.ts:18-26 | the list becomes the payload wholesale, both flags drop, the error is untouched |
| `RefreshController.CompleteFailure` | src/hooks/useCryptoData.ts:21-26 | the list is kept, the error records the failure, both flags drop |
| `RefreshController.FailureMessage` | src/hooks/useCryptoData.ts:22 | an `Error` yields its own message; any other thrown value yields "Failed to load data" |
| `RefreshController.LastWriteWins` | src/hooks/useCryptoData.ts:19-20 | after any trace of overlapping requests, the list is the payload of the last request to succeed, or the starting list if none did |
| `RefreshController.ErrorFollowsLastOutcome` | src/hooks/useCryptoData.ts:16-22 | after any trace, the error is cleared if the last start or failure was a start, holds that failure's message if it was a failure, and is the starting error if the trace has neither |
| `RefreshController.FlagsTrackUnansweredStarts` | src/hooks/useCryptoData.ts:12-26 | after any trace, `loading` (resp. `isRefreshing`) is up exactly when a foreground (resp. background) start has had no completion of any request after it, or the flag was up and nothing completed |
| `RefreshController.NonOverlappingSuccess` | src/hooks/useCryptoData.ts:13-26 | a start followed by its own success leaves exactly the payload, no error and both flags down |
| `RefreshController.NonOverlappingFailure` | src/hooks/useCryptoData.ts:13-26 | a start followed by its own failure leaves the old list, the failure message and both flags down |
| `RefreshController.OverlapClearsFlagsEarly` | src/hooks/useCryptoData.ts:23-26 | with two requests pending, the first completion lowers both flags although the other request has not settled |
| `RefreshController.OverlapCanKeepError` | src/hooks/useCryptoData.ts:16-22 | an older request failing after a newer one started leaves its error next to the newer request's fresh data |
| `RefreshController.RetryRaisesLoadingAgain` | src/hooks/useCryptoData.ts:45 | after the first load has failed, `retryFetch` sets `loading` again |
| `RefreshController.IssuedStarts` | src/hooks/useCryptoData.ts:33-36 | by `t` ms after mount, one foreground start and then ⌊t/30000⌋ background starts have been issued |
| `RefreshController.BeforeFirstResponse` | src/hooks/useCryptoData.ts:7-10 | from the initial state (empty list, loading, no error, not refreshing), until a response arrives the state stays the same, except that `isRefreshing` is up once the first interval has fired |
| `HomePage.FilterCryptos` | src/components/home/HomePage.tsx:194-197 | an entry is kept exactly when its lower-cased name or symbol contains the lower-cased term, and the result holds exactly as many entries as match, counted independently, so a repeated matching entry is kept each time |
| `HomePage.FilterPreservesOrder` | src/components/home/HomePage.tsx:194-197 | the filtered list is a subsequence of the input, in the input's order |
| `HomePage.EmptySearchKeepsAll` | src/components/home/HomePage.tsx:194-197 | an empty term keeps every entry |
| `HomePage.FilterIdempotent` | src/components/home/HomePage.tsx:194-197 | filtering the filtered list with the same term changes nothing |
| `Seqs.SelectLength` | src/components/home/HomePage.tsx:156-157 | a filter keeps exactly as many elements as pass its test, counted independently |
| `HomePage.GainersAndLosers` | src/components/home/HomePage.tsx:156-157 | the gainers count is the number of entries whose 24h change is positive, and the losers count the number whose change is negative, each against an independent count. Gainers plus losers is at most the list length |
| `HomePage.CountsSeeEveryMover` | src/components/home/HomePage.tsx:156-157 | there are gainers (resp. losers) exactly when some entry's 24h change is positive (resp. negative) |
| `HomePage.CountsPartitionList` | src/components/home/HomePage.tsx:156-157 | gainers, losers and the unchanged entries add up to the list length |
| `HomePage.Render` | src/components/home/HomePage.tsx:211-252 | placeholders show exactly while loading, and the error panel exactly when the error is a non-empty string. The list block shows exactly when not loading, with no error and a non-empty list. Inside it, the overview and the footer show exactly for an empty term, and the no-results notice exactly when a non-empty term matches nothing |
| `HomePage.RenderExclusions` | src/components/home/HomePage.tsx:219-241 | the list block never shows with the placeholders or the error panel. The overview never shows with the no-results notice, and when the overview shows, every entry is listed |
| `HomePage.ErrorHidesData` | src/components/home/HomePage.tsx:219-221 | a non-empty error replaces a non-empty list by the error panel; an empty error message hides nothing |
| `Converter.PriceOf` | src/components/converter/CryptoConverter.tsx:17-18 | the price of the first entry with the id; 0 when no entry has it |
| `Converter.ConvertedValue` | src/components/converter/CryptoConverter.tsx:21 | the converted value times the target price equals the amount times the source price |
| `Converter.Convert` | src/components/converter/CryptoConverter.tsx:16-24 | only the result changes. It is updated to the rendered ratio when both prices are non-zero and the amount is non-empty, and otherwise keeps its previous value |
| `Converter.Swap` | src/components/converter/CryptoConverter.tsx:30-36 | the currencies trade places and the amount becomes the previous result |
| `Converter.ConvertIdempotent` | src/components/converter/CryptoConverter.tsx:26-28 | running the conversion effect again changes nothing |
| `Converter.ConvertToSelf` | src/components/converter/CryptoConverter.tsx:21 | converting a currency with positive price into itself returns the amount |
| `Converter.ConvertRoundTrip` | src/components/converter/CryptoConverter.tsx:21 | converting A→B then B→A returns the original amount, in exact arithmetic |
| `Converter.SameCurrencyShowsAmount` | src/components/converter/CryptoConverter.tsx:17-23 | with the same currency on both sides and a positive price, the result shows the amount itself |
| `Converter.SwapTwiceRestoresPair` | src/components/converter/CryptoConverter.tsx:30-36 | swapping twice restores the from/to pair |
| `Converter.SwapConvertsBack` | src/components/converter/CryptoConverter.tsx:21-36 | pressing swap on a converted screen shows the original amount again, when the rendered result reads back exactly |
| `Converter.ListChangeReprices` | src/components/converter/CryptoConverter.tsx:26-28 | a new list re-runs the conversion: the result shows the ratio at the new prices, or keeps its value when the guard fails on the new list; nothing else changes |
| `Converter.SwapAfterRefreshUsesNewPrices` | src/components/converter/CryptoConverter.tsx:26-36 | after a refresh, swap moves the re-priced result into the amount |
| `Converter.UnknownCurrencyKeepsResult` | src/components/converter/CryptoConverter.tsx:17-23 | choosing a currency missing from the list keeps the previous result |
| `Converter.EmptyAmountKeepsResult` | src/components/converter/CryptoConverter.tsx:20-23 | clearing the amount keeps the previous result |
| `Converter.MountedExample` | src/components/converter/CryptoConverter.tsx:11-28 | the initial state is bitcoin → ethereum with amount "1". With bitcoin at 50000 and ethereum at 2500, the mounted converter shows 20 |
| `App.InitialScreenIsSkeleton` | src/hooks/useCryptoData.ts:7-10 | the hook's initial state shows only the loading placeholders |
| `App.FirstLoadShowsList` | src/components/home/HomePage.tsx:221-250 | a first load returning a non-empty list shows the list, the overview and the footer, nothing else |
| `App.BackgroundRefreshKeepsList` | src/hooks/useCryptoData.ts:29-31 | a pending background refresh keeps a shown list on screen |
| `App.FailedRefreshHidesList` | src/components/home/HomePage.tsx:219-221 | a failed background refresh keeps the list in state but shows the error panel instead, unless the message is empty |
| `App.RetryShowsSkeleton` | src/hooks/useCryptoData.ts:45 | retrying clears the error panel and brings the placeholders back |

## Left out

- `fetchCryptoData` (src/utils/api.ts:6-22) is network I/O: the HTTP request, the status check and JSON decoding. Its outcome is the `Succeed(data)` / `Fail(failure)` event.
- The duplicate formatters in src/utils/api.ts:24-56 are not used by the views, and they are floating-point/`Intl` based.
- `formatCurrency` and `formatNumber` are wrappers over `Intl.NumberFormat`.
- `formatCompactNumber`, `formatVolume`, `formatPercentage`, `formatCryptoAmount` and `formatConversionRate` depend on `toFixed` digit rendering of doubles.
- `formatFileSize` depends on `Math.log`.
- `isValidCryptoAmount` depends on `parseFloat`.
- `Formatters.FormatErrorMessage` takes the message text: for an `Error` argument the source reads its `message` field first, which happens before the model is entered.
- `Formatters.FormatPriceChange`: the `formatted` field (a `formatPercentage` string) is not modelled.
- The wall clock is a parameter. `formatTimeAgo` takes `now`; interval firings and request completions are discrete events. Real timing, and `clearInterval` on unmount (after which no further ticks occur), are not modelled.
- React's rendering and batching are out of scope: each event is one atomic state update.
- Lower-casing is ASCII only. `toLowerCase`'s full Unicode mapping is not modelled.
- String lengths count Unicode scalar values, not UTF-16 code units, so `truncateText` on text outside the Basic Multilingual Plane is not modelled.
- Numbers are `int` or `real`: NaN, the infinities and non-integer ranks, timestamps or `truncateText` lengths (which `substring` truncates toward zero) are not modelled.
- Integers of 10^21 and above, which JavaScript renders in exponent notation, are not modelled.
- `parseFloat` and `toFixed(8)` in the converter are the parameters `parse` and `render`. The amount input is a number field, so a non-empty amount parses to a finite number. The NaN path of `parseFloat` is not modelled.
- `Converter.SwapConvertsBack` assumes the rendered result reads back exactly. The component's 8-digit rounding makes the round trip approximate only.
- The market overview's total market cap is a floating-point sum rendered with `toFixed`, so it is not modelled.
- The converter's rate line is float rendering, so it is not modelled.
- The converter's quick-amount buttons are `setAmount`, which is the `EnterAmount` action.
- The presentational components (headers, cards, navigation, status bar, spinner) and the settings and portfolio screens carry no logic beyond markup and are not modelled.

## Findings

| source | as written | input that shows it | evidently intended | confidence | as-written member | corrected member |
|---|---|---|---|---|---|---|
| src/utils/formatters.ts:158-161 | only 1, 2 and 3 get "st", "nd", "rd"; every other positive rank gets "th" | rank 21 gives "21th" (also 22 → "22th", 23 → "23th") | the English ordinal suffix promised by the "proper suffix" comment: "21st", "22nd", "23rd", with "th" for 11–13 | medium, not executed | `Formatters.FormatRankMissesTwentyFirst` | `Formatters.EnglishOrdinalFollowsDigits` |

The corrected `EnglishOrdinalRank` agrees with the written rule on every rank up to 20
(`Formatters.EnglishOrdinalAgreesUpToTwenty`). No other part of the model formats ranks.

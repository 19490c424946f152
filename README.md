# Average holding time analyzer — a verified model

This project models the engine of `AverageHoldingTimeAnalyzer`. The analyzer takes
a Hyperliquid account's trade executions ("fills") and matches every closing fill
against earlier opening fills of the same coin, first in, first out. Each match
yields a *holding observation*: the size matched, when the lot was opened and closed,
and the holding time in hours. From these observations it computes per-coin and
overall statistics. It then decides whether the account is a high-frequency trader,
meaning its pooled simple average holding time is at most one hour.

The model is in five modules, plus one of worked runs:

- `Fills` (`fills.dfy`) covers:
  - the fill, lot and observation records;
  - the millisecond-to-hours conversion;
  - Python's `'Open' in direction` as a substring test;
  - `sorted(fills, key=time)` as a stable insertion sort.
- `Matcher` (`matcher.dfy`) is the FIFO matcher as pure functions:
  - `Close` is one closing fill against one coin's queue;
  - `Step` is one fill against the whole book (both dictionaries);
  - `Replay` processes a list of fills in order;
  - `Matching` sorts, then replays.

  The module also proves the queue's properties: quantity conservation, only the head changes, positivity, and non-negative holding times.
- `Statistics` (`statistics.dfy`) covers `get_coin_statistics`, `get_overall_statistics` and `get_open_positions`, their bounds, and whether the per-coin report can raise.
- `Decisions` (`decisions.dfy`) covers the unit `format_time` picks and the threshold at the end of `analyze`.
- `Analyzer` (`analyzer.dfy`) is the class itself. Its fields are `fills`, `holdingTimes`, `coinOrder` and `positions`. Its methods run the same loops as the source: a `for` loop over the sorted fills, and the `while` loop of the closing handler. Each method is proved to leave exactly the state the `Matcher` functions describe.
- `Scenarios` (`scenarios.dfy`) works out concrete runs: a partial close, a close that spans two lots, a close with nothing open, a close of size zero, and the decision rules at their boundaries.

Python's dictionaries are modelled as follows:

- `positions` and `holding_times` are `defaultdict(list)`. A missing coin reads as an empty list.
- Reading `self.positions[coin]` in the closing loop's condition creates the key. That read happens only once `remaining_size > 0` holds, so after a close of positive size the coin is a key of `positions`, possibly with an empty queue. A close of size zero or less leaves `positions` as it was.
- A coin becomes a key of `holding_times` only with its first observation.
- Python iterates a dictionary in key insertion order. `coinOrder` records the order in which coins entered `holding_times`, and pooling and the report follow that order.

Sizes, prices and hours are mathematical reals, and timestamps are integers.

Two failure modes of the source are modelled as results rather than excluded:

- A coin whose matched sizes sum to zero raises `ZeroDivisionError` in the averages. The statistics return the `ZeroDivision` outcome, alongside `NoData` for Python's `None`.
- In `analyze`, every exception is caught, and the method then returns `None`. This covers a `None` overall result being subscripted, and a per-coin division by zero while printing the report.

## Model

| member | source | states |
|---|---|---|
| Fills.MsToHours | utils/average_holding_time.py:88-89 | the hours times 3 600 000 give back the milliseconds, and the hours are non-negative exactly when the milliseconds are |
| Fills.Observe | utils/average_holding_time.py:88-110 | the observation carries the matched size, the lot's open time and the fill's close time; its hours times 3 600 000 are exactly the close time minus the open time, so they are non-negative exactly when the lot opened no later than the close |
| Fills.Contains | utils/average_holding_time.py:62 | the empty string is contained in every direction, and nothing longer than the direction is contained in it |
| Fills.ContainsIsSubstring | utils/average_holding_time.py:62 | the direction test holds exactly when "Open" occurs at some index of the direction |
| Fills.ContainsNeedsHead | utils/average_holding_time.py:62 | a direction without the letter O is never an opening |
| Fills.IsOpening | utils/average_holding_time.py:62 | a fill is an opening exactly when "Open" occurs at some index of its direction |
| Fills.Insert | utils/average_holding_time.py:53 | inserting into a time-sorted list keeps it sorted and adds exactly the one fill (as a multiset); the new last fill is the inserted one when it is no earlier than the old last, and the old last otherwise |
| Fills.InsertStable | utils/average_holding_time.py:53 | for every timestamp, the inserted fill comes after the fills already there with that timestamp |
| Fills.SortByTime | utils/average_holding_time.py:53 | the result is sorted by time and is a permutation of the input |
| Fills.SortByTimeStable | utils/average_holding_time.py:53 | for every timestamp, the fills carrying it keep their input order (the sort is stable) |
| Fills.SortSortedIsIdentity | utils/average_holding_time.py:53 | fills already in time order come back unchanged |
| Fills.SortByTimeIdempotent | utils/average_holding_time.py:53 | sorting twice is sorting once |
| Matcher.Close | utils/average_holding_time.py:81-113 | neither the lots left nor the observations emitted outnumber the lots the close started with |
| Matcher.CloseConserves | utils/average_holding_time.py:81-113 | what a close leaves open plus what it matches is the queue total it started with |
| Matcher.ClosePositive | utils/average_holding_time.py:81-113 | with positive lots and a close size S ≥ 0 against a queue total Q: the matched sizes sum to min(S, Q), Q − min(S, Q) stays open (the excess is dropped), and every lot left and every observation has positive size |
| Matcher.CloseConsumesHead | utils/average_holding_time.py:83-113 | a close pops k lots from the front; the new head is either untouched or reduced in size with its time and price kept; every later lot is unchanged |
| Matcher.CloseEmitsConsumed | utils/average_holding_time.py:83-113 | the observations are, in queue order, one per popped lot for its whole size, then at most one for the part cut off the new head |
| Matcher.CloseTimes | utils/average_holding_time.py:83-113 | the i-th observation's open time is the i-th lot's time and its close time is the fill's time |
| Matcher.CloseNotBeforeOpen | utils/average_holding_time.py:83-103 | against lots opened no later than the fill, every observation has a non-negative holding time and the lots left are still no later than the fill |
| Matcher.Record | utils/average_holding_time.py:91-110 | appending observations never changes `positions`, adds at most the one coin to the keys of `holding_times` and at most one entry to the key order |
| Matcher.RecordEffect | utils/average_holding_time.py:105-110 | appending observations creates the coin's key only with the first one and keeps the key order consistent; the coin's list grows by exactly those observations and every other coin's list is unchanged |
| Matcher.OpenLot | utils/average_holding_time.py:71-77 | an opening appends exactly one lot at the tail of its coin's queue; every other queue and all observations and the key order are unchanged |
| Matcher.CloseFill | utils/average_holding_time.py:79-83 | a close of positive size adds exactly its coin to the keys of `positions`, even when nothing was open; a close of size zero or less changes nothing; at most the coin is added to the keys of `holding_times` and to the key order |
| Matcher.CloseFillEffect | utils/average_holding_time.py:79-113 | a close replaces the coin's queue by what `Close` leaves and appends what it emits to the coin's observations; other coins are unchanged and the key order stays consistent |
| Matcher.Step | utils/average_holding_time.py:55-67 | one fill adds its coin to the keys of `positions` exactly when it is an opening or a close of positive size, and adds at most its coin to the keys of `holding_times` and at most one entry to the key order |
| Matcher.Replay | utils/average_holding_time.py:53-69 | after processing fills in the given order, every coin with a holding time is a key of `positions`, and the key order has no more entries than there were fills |
| Matcher.Matching | utils/average_holding_time.py:53-69 | the same for a whole run on the sorted fills |
| Matcher.ReplayValid | utils/average_holding_time.py:48-69 | every book a run builds has unique keys in `order`, exactly the keys of `holdings`, none with an empty list |
| Matcher.ReplayConserves | utils/average_holding_time.py:55-113 | for every coin, open quantity plus matched quantity equals the sum of its opening fills |
| Matcher.OpenedPermutation | utils/average_holding_time.py:53 | the opened total of a coin does not depend on the order of the fills |
| Matcher.MatchingConserves | utils/average_holding_time.py:39-113 | conservation holds for a whole run, whatever order the fills arrive in |
| Matcher.MatchingWithoutCloses | utils/average_holding_time.py:39-77 | a coin with no closing fill has no observations and all of its opened quantity is still queued |
| Matcher.ReplayPositive | utils/average_holding_time.py:83-113 | given positive fill sizes, every queued lot and every observation of every coin has positive size |
| Matcher.ReplaySortedInOrder | utils/average_holding_time.py:53-69 | replaying time-sorted fills leaves no lot later than the last fill and no negative holding time |
| Matcher.MatchingNonNegative | utils/average_holding_time.py:53-103 | because fills are sorted first, no observation of a run has a negative holding time, whatever the input order |
| Statistics.MinHours | utils/average_holding_time.py:141 | the minimum is a lower bound of the holding times |
| Statistics.MinHoursAttained | utils/average_holding_time.py:141 | the minimum is one of the holding times |
| Statistics.MaxHours | utils/average_holding_time.py:142 | the maximum is an upper bound of the holding times |
| Statistics.MaxHoursAttained | utils/average_holding_time.py:142 | the maximum is one of the holding times |
| Statistics.Summarize | utils/average_holding_time.py:135-152 | `None` exactly for an empty list, division by zero exactly when the sizes sum to zero; otherwise the coin, the count, the total matched size, the shortest and longest holding time, simple_avg times the count is the sum of the holding times, and weighted_avg times total_size is the sum of hours times size |
| Statistics.Quotient | utils/average_holding_time.py:138-140 | a quotient times its non-zero divisor gives back the sum |
| Statistics.SimpleAverageWithin | utils/average_holding_time.py:138-142 | min_time ≤ simple_avg ≤ max_time |
| Statistics.WeightedAverageWithin | utils/average_holding_time.py:139-142 | with non-negative sizes, min_time ≤ weighted_avg ≤ max_time |
| Statistics.SummarizePositive | utils/average_holding_time.py:133-140 | with positive sizes the statistics exist exactly for a non-empty list |
| Statistics.GetCoinStatistics | utils/average_holding_time.py:126-152 | `None` exactly when the coin has no observations, division by zero exactly when it has some and their sizes sum to zero; otherwise close_count is their number, total_size the sum of their sizes, simple_avg times close_count the sum of their holding times, and weighted_avg times total_size the sum of hours times size |
| Statistics.GetOverallStatistics | utils/average_holding_time.py:154-172 | over the observations of all coins pooled: `None` exactly when there are none, division by zero exactly when their sizes sum to zero; otherwise total_close_count is the pooled count, overall_simple_avg times it is the pooled sum of holding times, and overall_weighted_avg times the pooled size is the pooled sum of hours times size |
| Statistics.Pool | utils/average_holding_time.py:159-161 | the pooled list has as many entries as the coins' lists together |
| Statistics.PoolMembers | utils/average_holding_time.py:159-161 | an observation is pooled exactly when it belongs to one of the coins |
| Statistics.PoolEmpty | utils/average_holding_time.py:163-164 | the pool is non-empty exactly when some coin has an observation |
| Statistics.OverallCountIsSumOfCoinCounts | utils/average_holding_time.py:154-172 | with positive sizes, the overall statistics exist exactly when some coin has an observation, and total_close_count is the sum of the per-coin close_count values |
| Statistics.SumHoursAppend | utils/average_holding_time.py:160 | the sum of holding times over two lists joined is the sum of their sums |
| Statistics.SumWeightedAppend | utils/average_holding_time.py:161 | the same for the sum of hours times size |
| Statistics.PoolSums | utils/average_holding_time.py:159-166 | with positive sizes, the pooled sums of holding times, of sizes and of hours times size are the sums over the coins of simple_avg × close_count, of total_size and of weighted_avg × total_size |
| Statistics.OverallIsPooledMean | utils/average_holding_time.py:154-172 | with positive sizes, overall_simple_avg is the per-coin simple_avg weighted by close_count, and overall_weighted_avg the per-coin weighted_avg weighted by total_size: a pooled mean, not a mean of the per-coin means |
| Statistics.OverallSimpleWithin | utils/average_holding_time.py:170 | the overall simple average lies between the shortest and the longest pooled holding time |
| Statistics.OverallWeightedWithin | utils/average_holding_time.py:166-171 | with non-negative sizes the overall weighted average lies within the same bounds |
| Statistics.GetOpenPositions | utils/average_holding_time.py:174-176 | exactly the coins whose queue is non-empty are kept, each with its queue unchanged |
| Statistics.NeverClosedCoin | utils/average_holding_time.py:174-176 | a coin that is only ever opened has no statistics, and if it opened anything it is listed among the open positions with everything it opened |
| Statistics.ReportRaises | utils/average_holding_time.py:186-193 | the per-coin report raises exactly when some coin in the key order has observations whose sizes sum to zero |
| Statistics.PositiveReportSafe | utils/average_holding_time.py:187-189 | with positive sizes no coin's statistics divide by zero, so the report's per-coin loop never raises |
| Statistics.MatchingReportSafe | utils/average_holding_time.py:240-247 | after a run over fills of positive size, the report never raises |
| Decisions.FormatTime | utils/average_holding_time.py:116-124 | minutes exactly when hours < 1, hours exactly when 1 ≤ hours < 24, days exactly when hours ≥ 24; the amount shown is the same duration in that unit |
| Decisions.FormatTimeRange | utils/average_holding_time.py:116-124 | for a non-negative duration the amount shown lies in its unit's range (below 60 minutes, 1 to 24 hours, at least 1 day) |
| Decisions.HighFrequency | utils/average_holding_time.py:240-247 | the address is returned exactly when the overall statistics exist, their simple average is ≤ 1 and the report does not raise; nothing else is ever returned |
| Analyzer.AverageHoldingTimeAnalyzer.constructor | utils/average_holding_time.py:9-20 | the address is stored, there are no fills and both dictionaries are empty |
| Analyzer.AverageHoldingTimeAnalyzer.HandleOpening | utils/average_holding_time.py:71-77 | the new state is exactly `OpenLot` of the old one |
| Analyzer.AverageHoldingTimeAnalyzer.HandleClosing | utils/average_holding_time.py:79-113 | the new state is exactly `CloseFill` of the old one: the loop's queue and observations are `Close`'s, and the coin's queue is stored under its key only for a close of positive size |
| Analyzer.AverageHoldingTimeAnalyzer.CloseHead | utils/average_holding_time.py:84-113 | one pass of the closing loop: the head lot is closed whole and popped, or cut, and its observation is appended under the key-creating append |
| Analyzer.AverageHoldingTimeAnalyzer.CalculateAverageHoldingTime | utils/average_holding_time.py:39-69 | both dictionaries are reset, then the state is exactly `Matching` of the fills, and both dictionaries are returned |
| Analyzer.AverageHoldingTimeAnalyzer.Analyze | utils/average_holding_time.py:223-254 | no fills: nothing returned and nothing changed; otherwise the state is `Matching` of the fills and the result is `HighFrequency` of the overall statistics and of whether the report raises |
| Scenarios.CloseDirections | utils/average_holding_time.py:62 | "Close Long" and "Close Short" are closing directions |
| Scenarios.PartialClose | utils/average_holding_time.py:79-113 | a lot of 10 closed as 4 after one hour and 6 after three hours yields observations (1 h, 4) and (3 h, 6) and leaves nothing open |
| Scenarios.MultiLotFifo | utils/average_holding_time.py:79-113 | lots of 5 and 5, one hour apart, met by a close of 7: (2 h, 5) for the first lot, (1 h, 2) for the second, and 3 of the second stays open |
| Scenarios.CloseWithoutOpen | utils/average_holding_time.py:79-83 | a close with nothing open emits nothing, and the coin's key now holds an empty queue |
| Scenarios.ZeroSizeClose | utils/average_holding_time.py:81-83 | a close of size zero reads no queue, so no key is created |
| Scenarios.FormatBoundaries | utils/average_holding_time.py:116-124 | exactly 1 hour is shown in hours and exactly 24 in days; half an hour is 30 minutes, 36 hours is 1.5 days |
| Scenarios.ThresholdBoundaries | utils/average_holding_time.py:240-247 | an overall simple average of exactly 1 hour is still returned; a run without observations is not |

## Left out

- The HTTP request in `fetch_user_fills` (`utils/average_holding_time.py:22-37`) is network I/O. `Analyze` takes the fetched fills as a parameter instead. Its request-failure branch (a `RequestException`, with nothing returned) is not modelled.
- `api_url` and the request headers and body only serve that request.
- All console output is left out:
  - the text `print_statistics` prints (`utils/average_holding_time.py:178-221`);
  - the prints and the traceback in `analyze`;
  - the `main` driver and `main.py`, which loops over a configured list of addresses.

  Of the report, the model keeps only whether its per-coin loop raises. That is the one effect it has on what `analyze` returns.
- Decisions.FormatTime: the `.1f` rounding and the unit text are not modelled. The model returns the amount and the unit.
- IEEE double rounding in `float(fill['sz'])`, the sums and the divisions is not modelled. Sizes, prices and hours are mathematical reals.
- A fill missing `coin`, `sz`, `time`, `dir` or `px` raises `KeyError` in the source. Fills here are records with every field present.
- The closing loop shrinks `self.positions[coin]` in place. The model works on a local copy of the queue and stores it back once the loop ends. No statement in between reads `positions`, so nothing observable differs.
- In the partial branch, the source mutates the dictionary in the list (`position['size'] -= …`). That dictionary is not shared with anything else, so the model replaces the head lot by a reduced copy.
- Statistics.OverallCountIsSumOfCoinCounts and Statistics.WeightedAverageWithin require non-negative or positive sizes, which is what the exchange reports. Without them, a coin whose observation sizes sum to zero raises `ZeroDivisionError` and has no per-coin count, and with negative sizes the weighted bound is false.

/** Per-coin and overall holding-time statistics, and the open-positions view,
    all computed from the matcher's two dictionaries. */
module Statistics {
  import opened Fills
  import opened Matcher

  /** The dictionary `get_coin_statistics` returns. */
  datatype CoinStats = CoinStats(
    coin: string, closeCount: nat, simpleAvg: real, weightedAvg: real,
    minTime: real, maxTime: real, totalSize: real)

  /** The dictionary `get_overall_statistics` returns. */
  datatype OverallStats = OverallStats(totalCloseCount: nat, overallSimpleAvg: real, overallWeightedAvg: real)

  /** A statistic is absent (Python's `None`) when there is nothing to average, and
      dividing by a total matched size of zero raises `ZeroDivisionError`. */
  datatype Outcome<T> = NoData | ZeroDivision | Computed(value: T)

  /** `sum(t['holding_time_hours'] for t in times)` */
  function SumHours(obs: seq<Obs>): real {
    if obs == [] then 0.0 else obs[0].hours + SumHours(obs[1..])
  }

  /** `sum(t['holding_time_hours'] * t['size'] for t in times)` */
  function SumWeighted(obs: seq<Obs>): real {
    if obs == [] then 0.0 else obs[0].hours * obs[0].size + SumWeighted(obs[1..])
  }

  /** `min(t['holding_time_hours'] for t in times)` */
  function MinHours(obs: seq<Obs>): (m: real)
    requires obs != []
    ensures forall i :: 0 <= i < |obs| ==> m <= obs[i].hours
  {
    if |obs| == 1 then obs[0].hours
    else
      var rest := MinHours(obs[1..]);
      assert forall i :: 1 <= i < |obs| ==> obs[i] == obs[1..][i - 1];
      if obs[0].hours <= rest then obs[0].hours else rest
  }

  /** `max(t['holding_time_hours'] for t in times)` */
  function MaxHours(obs: seq<Obs>): (m: real)
    requires obs != []
    ensures forall i :: 0 <= i < |obs| ==> obs[i].hours <= m
  {
    if |obs| == 1 then obs[0].hours
    else
      var rest := MaxHours(obs[1..]);
      assert forall i :: 1 <= i < |obs| ==> obs[i] == obs[1..][i - 1];
      if obs[0].hours >= rest then obs[0].hours else rest
  }

  /** The minimum is one of the holding times. */
  lemma {:induction false} MinHoursAttained(obs: seq<Obs>)
    requires obs != []
    ensures exists i :: 0 <= i < |obs| && obs[i].hours == MinHours(obs)
    decreases |obs|
  {
    if |obs| > 1 && obs[0].hours > MinHours(obs[1..]) {
      MinHoursAttained(obs[1..]);
      var i :| 0 <= i < |obs[1..]| && obs[1..][i].hours == MinHours(obs[1..]);
      assert obs[i + 1] == obs[1..][i];
    } else {
      assert obs[0].hours == MinHours(obs);
    }
  }

  /** The maximum is one of the holding times. */
  lemma {:induction false} MaxHoursAttained(obs: seq<Obs>)
    requires obs != []
    ensures exists i :: 0 <= i < |obs| && obs[i].hours == MaxHours(obs)
    decreases |obs|
  {
    if |obs| > 1 && obs[0].hours < MaxHours(obs[1..]) {
      MaxHoursAttained(obs[1..]);
      var i :| 0 <= i < |obs[1..]| && obs[1..][i].hours == MaxHours(obs[1..]);
      assert obs[i + 1] == obs[1..][i];
    } else {
      assert obs[0].hours == MaxHours(obs);
    }
  }

  /** Every holding time of `obs` lies in `[lo, hi]`. */
  predicate HoursWithin(obs: seq<Obs>, lo: real, hi: real) {
    forall i :: 0 <= i < |obs| ==> lo <= obs[i].hours <= hi
  }

  /** No observation of `obs` has a negative size. */
  predicate SizesNonNegative(obs: seq<Obs>) {
    forall i :: 0 <= i < |obs| ==> obs[i].size >= 0.0
  }

  lemma {:induction false} SumHoursWithin(obs: seq<Obs>, lo: real, hi: real)
    requires HoursWithin(obs, lo, hi)
    ensures (|obs| as real) * lo <= SumHours(obs) <= (|obs| as real) * hi
    decreases |obs|
  {
    if obs != [] {
      assert HoursWithin(obs[1..], lo, hi) by {
        forall i | 0 <= i < |obs[1..]| ensures lo <= obs[1..][i].hours <= hi {
          assert obs[1..][i] == obs[i + 1];
        }
      }
      SumHoursWithin(obs[1..], lo, hi);
    }
  }

  lemma {:induction false} SumWeightedWithin(obs: seq<Obs>, lo: real, hi: real)
    requires HoursWithin(obs, lo, hi) && SizesNonNegative(obs)
    ensures lo * Matched(obs) <= SumWeighted(obs) <= hi * Matched(obs)
    decreases |obs|
  {
    if obs != [] {
      var o := obs[0];
      assert HoursWithin(obs[1..], lo, hi) && SizesNonNegative(obs[1..]) by {
        forall i | 0 <= i < |obs[1..]| ensures lo <= obs[1..][i].hours <= hi && obs[1..][i].size >= 0.0 {
          assert obs[1..][i] == obs[i + 1];
        }
      }
      SumWeightedWithin(obs[1..], lo, hi);
      assert (o.hours - lo) * o.size >= 0.0;
      assert (hi - o.hours) * o.size >= 0.0;
    }
  }

  lemma {:induction false} MatchedNonNegative(obs: seq<Obs>)
    requires SizesNonNegative(obs)
    ensures Matched(obs) >= 0.0
    ensures Matched(obs) == 0.0 ==> forall i :: 0 <= i < |obs| ==> obs[i].size == 0.0
    decreases |obs|
  {
    if obs != [] {
      assert SizesNonNegative(obs[1..]) by {
        forall i | 0 <= i < |obs[1..]| ensures obs[1..][i].size >= 0.0 { assert obs[1..][i] == obs[i + 1]; }
      }
      MatchedNonNegative(obs[1..]);
      forall i | 1 <= i < |obs| ensures Matched(obs) == 0.0 ==> obs[i].size == 0.0 {
        assert obs[i] == obs[1..][i - 1];
      }
    }
  }

  /** A mean of values in `[lo, hi]` lies in `[lo, hi]`. */
  lemma QuotientWithin(sum: real, n: real, lo: real, hi: real)
    requires n > 0.0 && n * lo <= sum <= n * hi
    ensures lo <= Quotient(sum, n) <= hi
  {
    var q := Quotient(sum, n);
    assert q * n == sum;
    assert (q - lo) * n >= 0.0;
    assert (hi - q) * n >= 0.0;
  }

  /** The averages of a non-empty list of observations: count, simple mean, and mean
      weighted by matched size; `NoData` when empty, `ZeroDivision` when the sizes sum to 0. */
  function Summarize(coin: string, times: seq<Obs>): (r: Outcome<CoinStats>)
    ensures r.NoData? <==> times == []
    ensures r.ZeroDivision? <==> times != [] && Matched(times) == 0.0
    ensures r.Computed? ==>
      r.value.coin == coin && r.value.closeCount == |times| && r.value.totalSize == Matched(times) &&
      // the extremes are the shortest and the longest holding time of the list
      r.value.minTime == MinHours(times) && r.value.maxTime == MaxHours(times)
    // the simple average is the sum of the holding times over their number, and the
    // weighted average the size-weighted sum over the total matched size
    ensures r.Computed? ==>
      r.value.simpleAvg * (|times| as real) == SumHours(times) &&
      r.value.weightedAvg * r.value.totalSize == SumWeighted(times)
  {
    if times == [] then NoData
    else
      var totalSize := Matched(times);
      if totalSize == 0.0 then ZeroDivision
      else
        Computed(CoinStats(coin, |times|, Quotient(SumHours(times), |times| as real),
                           Quotient(SumWeighted(times), totalSize),
                           MinHours(times), MaxHours(times), totalSize))
  }

  /** The true division `sum / n`: multiplied back by `n` it gives `sum`. */
  function Quotient(sum: real, n: real): (m: real)
    requires n != 0.0
    ensures m * n == sum
  {
    sum / n
  }

  /** The simple average lies between the shortest and the longest holding time. */
  lemma SimpleAverageWithin(coin: string, times: seq<Obs>)
    ensures var r := Summarize(coin, times);
      r.Computed? ==> r.value.minTime <= r.value.simpleAvg <= r.value.maxTime
  {
    if times != [] && Matched(times) != 0.0 {
      MeanWithin(times);
    }
  }

  lemma MeanWithin(times: seq<Obs>)
    requires times != []
    ensures MinHours(times) <= Quotient(SumHours(times), |times| as real) <= MaxHours(times)
  {
    MeanBetween(times, MinHours(times), MaxHours(times));
  }

  /** A mean of holding times in `[lo, hi]` lies in `[lo, hi]`. */
  lemma MeanBetween(times: seq<Obs>, lo: real, hi: real)
    requires times != [] && HoursWithin(times, lo, hi)
    ensures lo <= Quotient(SumHours(times), |times| as real) <= hi
  {
    SumHoursWithin(times, lo, hi);
    QuotientWithin(SumHours(times), |times| as real, lo, hi);
  }

  /** With non-negative matched sizes the weighted average also lies between the
      shortest and the longest holding time. */
  lemma WeightedAverageWithin(coin: string, times: seq<Obs>)
    requires SizesNonNegative(times)
    ensures var r := Summarize(coin, times);
      r.Computed? ==> r.value.minTime <= r.value.weightedAvg <= r.value.maxTime
  {
    if times != [] && Matched(times) != 0.0 {
      WeightedBetween(times, MinHours(times), MaxHours(times));
    }
  }

  /** A size-weighted mean of holding times in `[lo, hi]` lies in `[lo, hi]`. */
  lemma WeightedBetween(times: seq<Obs>, lo: real, hi: real)
    requires HoursWithin(times, lo, hi) && SizesNonNegative(times) && Matched(times) != 0.0
    ensures lo <= Quotient(SumWeighted(times), Matched(times)) <= hi
  {
    SumWeightedWithin(times, lo, hi);
    MatchedNonNegative(times);
    QuotientWithin(SumWeighted(times), Matched(times), lo, hi);
  }

  /** With positive matched sizes the statistics always exist for a non-empty list. */
  lemma SummarizePositive(coin: string, times: seq<Obs>)
    requires ObsPositive(times)
    ensures Summarize(coin, times).Computed? <==> times != []
  {
    if times != [] {
      assert times[0].size > 0.0;
      assert SizesNonNegative(times);
      MatchedNonNegative(times);
    }
  }

  /** `get_coin_statistics(coin)`: `holding_times.get(coin, [])`, summarized. */
  function GetCoinStatistics(holdings: map<string, seq<Obs>>, coin: string): (r: Outcome<CoinStats>)
    ensures r.NoData? <==> coin !in holdings || holdings[coin] == []
    ensures r.ZeroDivision? <==> coin in holdings && holdings[coin] != [] && Matched(holdings[coin]) == 0.0
    ensures r.Computed? ==> r.value.closeCount == |holdings[coin]| && r.value.totalSize == Matched(holdings[coin])
    ensures r.Computed? ==>
      r.value.simpleAvg * (r.value.closeCount as real) == SumHours(holdings[coin]) &&
      r.value.weightedAvg * r.value.totalSize == SumWeighted(holdings[coin])
  {
    if coin in holdings then Summarize(coin, holdings[coin]) else Summarize(coin, [])
  }

  // ---------------------------------------------------------------------------
  // Pooling across coins

  /** The pooled observations of `coins`, in that order: what the loop over
      `holding_times.items()` extends its lists with. */
  function Pool(holdings: map<string, seq<Obs>>, coins: seq<string>): (r: seq<Obs>)
    // as many entries as the coins' lists together
    ensures |r| == CountSum(holdings, coins)
  {
    if coins == [] then []
    else Pool(holdings, coins[..|coins| - 1]) +
         (if coins[|coins| - 1] in holdings then holdings[coins[|coins| - 1]] else [])
  }

  /** Number of observations per coin, added up over `coins`. */
  function CountSum(holdings: map<string, seq<Obs>>, coins: seq<string>): nat {
    if coins == [] then 0
    else CountSum(holdings, coins[..|coins| - 1]) +
         (if coins[|coins| - 1] in holdings then |holdings[coins[|coins| - 1]]| else 0)
  }

  /** `get_overall_statistics`: the same averages over all coins' observations pooled,
      not an average of the per-coin averages. */
  function GetOverallStatistics(holdings: map<string, seq<Obs>>, order: seq<string>): (r: Outcome<OverallStats>)
    ensures var all := Pool(holdings, order);
      (r.NoData? <==> all == []) &&
      (r.ZeroDivision? <==> all != [] && Matched(all) == 0.0) &&
      (r.Computed? ==> r.value.totalCloseCount == |all|) &&
      // both averages are over the pooled observations
      (r.Computed? ==>
         r.value.overallSimpleAvg * (|all| as real) == SumHours(all) &&
         r.value.overallWeightedAvg * Matched(all) == SumWeighted(all))
  {
    var all := Pool(holdings, order);
    if all == [] then NoData
    else
      var totalSize := Matched(all);
      if totalSize == 0.0 then ZeroDivision
      else Computed(OverallStats(|all|, Quotient(SumHours(all), |all| as real), Quotient(SumWeighted(all), totalSize)))
  }

  /** Every observation of a listed coin is in the pool, and the pool holds nothing else. */
  lemma {:induction false} PoolMembers(holdings: map<string, seq<Obs>>, coins: seq<string>, o: Obs)
    ensures o in Pool(holdings, coins) <==>
      exists j :: 0 <= j < |coins| && coins[j] in holdings && o in holdings[coins[j]]
    decreases |coins|
  {
    if coins != [] {
      var init, c := coins[..|coins| - 1], coins[|coins| - 1];
      PoolMembers(holdings, init, o);
      if j :| 0 <= j < |init| && init[j] in holdings && o in holdings[init[j]] {
        assert coins[j] == init[j];
      }
      if j :| 0 <= j < |coins| && coins[j] in holdings && o in holdings[coins[j]] {
        if j < |init| { assert init[j] == coins[j]; }
      }
    }
  }

  /** Count of observations per coin, taken from the per-coin statistics. */
  function StatsCountSum(holdings: map<string, seq<Obs>>, coins: seq<string>): nat {
    if coins == [] then 0
    else
      var r := GetCoinStatistics(holdings, coins[|coins| - 1]);
      StatsCountSum(holdings, coins[..|coins| - 1]) + (if r.Computed? then r.value.closeCount else 0)
  }

  /** Every coin's matched sizes are positive. */
  ghost predicate HoldingsPositive(holdings: map<string, seq<Obs>>) {
    forall c :: c in holdings ==> ObsPositive(holdings[c])
  }

  lemma {:induction false} CountsAgree(holdings: map<string, seq<Obs>>, coins: seq<string>)
    requires HoldingsPositive(holdings)
    ensures CountSum(holdings, coins) == StatsCountSum(holdings, coins)
    decreases |coins|
  {
    if coins != [] {
      var c := coins[|coins| - 1];
      CountsAgree(holdings, coins[..|coins| - 1]);
      if c in holdings {
        SummarizePositive(c, holdings[c]);
      }
    }
  }

  /** Some listed coin has an observation. */
  predicate AnyObserved(holdings: map<string, seq<Obs>>, coins: seq<string>) {
    exists j :: 0 <= j < |coins| && coins[j] in holdings && holdings[coins[j]] != []
  }

  lemma {:induction false} PoolEmpty(holdings: map<string, seq<Obs>>, coins: seq<string>)
    ensures Pool(holdings, coins) != [] <==> AnyObserved(holdings, coins)
    decreases |coins|
  {
    if coins != [] {
      var init := coins[..|coins| - 1];
      PoolEmpty(holdings, init);
      if AnyObserved(holdings, init) {
        var j :| 0 <= j < |init| && init[j] in holdings && holdings[init[j]] != [];
        assert coins[j] == init[j];
      }
      if j :| 0 <= j < |coins| && coins[j] in holdings && holdings[coins[j]] != [] {
        if j < |init| { assert init[j] == coins[j]; }
      }
    }
  }

  lemma PoolPositive(holdings: map<string, seq<Obs>>, coins: seq<string>)
    requires HoldingsPositive(holdings)
    ensures ObsPositive(Pool(holdings, coins))
  {
    var all := Pool(holdings, coins);
    forall i | 0 <= i < |all| ensures all[i].size > 0.0 {
      PoolMembers(holdings, coins, all[i]);
      var j :| 0 <= j < |coins| && coins[j] in holdings && all[i] in holdings[coins[j]];
      assert ObsPositive(holdings[coins[j]]);
    }
  }

  /** With positive sizes, the overall close count is the sum of the per-coin close
      counts, and the overall statistics exist exactly when some coin has an observation. */
  lemma OverallCountIsSumOfCoinCounts(holdings: map<string, seq<Obs>>, coins: seq<string>)
    requires HoldingsPositive(holdings)
    ensures var r := GetOverallStatistics(holdings, coins);
      (r.Computed? <==> AnyObserved(holdings, coins)) &&
      (r.Computed? ==> r.value.totalCloseCount == StatsCountSum(holdings, coins))
  {
    CountsAgree(holdings, coins);
    PoolEmpty(holdings, coins);
    PoolPositive(holdings, coins);
    SummarizePositive("", Pool(holdings, coins));
  }

  /** The overall simple average lies between the shortest and the longest pooled
      holding time. */
  lemma OverallSimpleWithin(holdings: map<string, seq<Obs>>, order: seq<string>)
    ensures var r := GetOverallStatistics(holdings, order);
      r.Computed? ==> MinHours(Pool(holdings, order)) <= r.value.overallSimpleAvg <= MaxHours(Pool(holdings, order))
  {
    var all := Pool(holdings, order);
    if all != [] {
      MeanWithin(all);
    }
  }

  /** With non-negative sizes the overall weighted average lies between the shortest
      and the longest pooled holding time. */
  lemma OverallWeightedWithin(holdings: map<string, seq<Obs>>, order: seq<string>)
    requires SizesNonNegative(Pool(holdings, order))
    ensures var r := GetOverallStatistics(holdings, order);
      r.Computed? ==> MinHours(Pool(holdings, order)) <= r.value.overallWeightedAvg <= MaxHours(Pool(holdings, order))
  {
    var all := Pool(holdings, order);
    if all != [] && Matched(all) != 0.0 {
      WeightedBetween(all, MinHours(all), MaxHours(all));
    }
  }

  lemma {:induction false} SumHoursAppend(a: seq<Obs>, b: seq<Obs>)
    ensures SumHours(a + b) == SumHours(a) + SumHours(b)
    decreases |a|
  {
    if a == [] {
      assert a + b == b;
    } else {
      assert (a + b)[1..] == a[1..] + b;
      SumHoursAppend(a[1..], b);
    }
  }

  lemma {:induction false} SumWeightedAppend(a: seq<Obs>, b: seq<Obs>)
    ensures SumWeighted(a + b) == SumWeighted(a) + SumWeighted(b)
    decreases |a|
  {
    if a == [] {
      assert a + b == b;
    } else {
      assert (a + b)[1..] == a[1..] + b;
      SumWeightedAppend(a[1..], b);
    }
  }

  /** Per coin, `close_count * simple_avg` (the coin's summed holding time), added up
      over `coins`, taken from the per-coin statistics. */
  function StatsHoursSum(holdings: map<string, seq<Obs>>, coins: seq<string>): real {
    if coins == [] then 0.0
    else
      var r := GetCoinStatistics(holdings, coins[|coins| - 1]);
      StatsHoursSum(holdings, coins[..|coins| - 1]) +
      (if r.Computed? then r.value.simpleAvg * (r.value.closeCount as real) else 0.0)
  }

  /** Per coin, `total_size`, added up over `coins`. */
  function StatsSizeSum(holdings: map<string, seq<Obs>>, coins: seq<string>): real {
    if coins == [] then 0.0
    else
      var r := GetCoinStatistics(holdings, coins[|coins| - 1]);
      StatsSizeSum(holdings, coins[..|coins| - 1]) + (if r.Computed? then r.value.totalSize else 0.0)
  }

  /** Per coin, `total_size * weighted_avg` (the coin's size-weighted holding time),
      added up over `coins`. */
  function StatsWeightedSum(holdings: map<string, seq<Obs>>, coins: seq<string>): real {
    if coins == [] then 0.0
    else
      var r := GetCoinStatistics(holdings, coins[|coins| - 1]);
      StatsWeightedSum(holdings, coins[..|coins| - 1]) +
      (if r.Computed? then r.value.weightedAvg * r.value.totalSize else 0.0)
  }

  /** With positive sizes, the pooled sums are the per-coin sums added up. */
  lemma {:induction false} PoolSums(holdings: map<string, seq<Obs>>, coins: seq<string>)
    requires HoldingsPositive(holdings)
    ensures SumHours(Pool(holdings, coins)) == StatsHoursSum(holdings, coins)
    ensures Matched(Pool(holdings, coins)) == StatsSizeSum(holdings, coins)
    ensures SumWeighted(Pool(holdings, coins)) == StatsWeightedSum(holdings, coins)
    decreases |coins|
  {
    if coins != [] {
      var init, c := coins[..|coins| - 1], coins[|coins| - 1];
      var times := if c in holdings then holdings[c] else [];
      PoolSums(holdings, init);
      SumHoursAppend(Pool(holdings, init), times);
      MatchedAppend(Pool(holdings, init), times);
      SumWeightedAppend(Pool(holdings, init), times);
      if c in holdings {
        SummarizePositive(c, times);
      }
    }
  }

  /** The overall averages are means over the pooled observations, not means of the
      per-coin means: `overall_simple_avg` is the sum over the coins of
      `simple_avg * close_count` divided by the summed close counts, and
      `overall_weighted_avg` the sum over the coins of `weighted_avg * total_size`
      divided by the summed `total_size`. */
  lemma OverallIsPooledMean(holdings: map<string, seq<Obs>>, coins: seq<string>)
    requires HoldingsPositive(holdings)
    ensures var r := GetOverallStatistics(holdings, coins);
      r.Computed? ==>
        StatsCountSum(holdings, coins) > 0 && StatsSizeSum(holdings, coins) != 0.0 &&
        r.value.overallSimpleAvg == Quotient(StatsHoursSum(holdings, coins), StatsCountSum(holdings, coins) as real) &&
        r.value.overallWeightedAvg == Quotient(StatsWeightedSum(holdings, coins), StatsSizeSum(holdings, coins))
  {
    CountsAgree(holdings, coins);
    PoolSums(holdings, coins);
  }

  // ---------------------------------------------------------------------------
  // Open positions

  /** `get_open_positions`: the coins whose queue still holds a lot, with their queues. */
  function GetOpenPositions(positions: map<string, seq<Lot>>): (r: map<string, seq<Lot>>)
    ensures forall c :: c in r <==> c in positions && positions[c] != []
    ensures forall c :: c in r ==> r[c] == positions[c]
  {
    map c | c in positions && positions[c] != [] :: positions[c]
  }

  /** A coin that is opened but never closed gets no statistics, and the open positions
      list it with everything it opened. */
  lemma NeverClosedCoin(fills: seq<Fill>, coin: string)
    requires forall f :: f in fills && f.coin == coin ==> IsOpening(f)
    ensures var b := Matching(fills);
      GetCoinStatistics(b.holdings, coin) == NoData &&
      (Opened(fills, coin) != 0.0 ==>
         coin in GetOpenPositions(b.positions) && Total(GetOpenPositions(b.positions)[coin]) == Opened(fills, coin))
  {
    MatchingWithoutCloses(fills, coin);
  }

  // ---------------------------------------------------------------------------
  // The report

  /** The per-coin loop of `print_statistics` raises: some coin of `holding_times`,
      visited in key order, has observations whose sizes sum to zero. */
  predicate ReportRaises(holdings: map<string, seq<Obs>>, order: seq<string>)
    ensures ReportRaises(holdings, order) <==>
      exists i :: 0 <= i < |order| && order[i] in holdings && holdings[order[i]] != [] &&
        Matched(holdings[order[i]]) == 0.0
  {
    exists i :: 0 <= i < |order| && GetCoinStatistics(holdings, order[i]).ZeroDivision?
  }

  /** With positive sizes every coin's statistics are defined, so the report never raises. */
  lemma PositiveReportSafe(holdings: map<string, seq<Obs>>, order: seq<string>)
    requires HoldingsPositive(holdings)
    ensures !ReportRaises(holdings, order)
  {
    forall i | 0 <= i < |order|
      ensures !GetCoinStatistics(holdings, order[i]).ZeroDivision?
    {
      var c := order[i];
      if c in holdings {
        SummarizePositive(c, holdings[c]);
      }
    }
  }

  /** Matching fills of positive size leaves no coin whose report raises. */
  lemma MatchingReportSafe(fills: seq<Fill>)
    requires forall i :: 0 <= i < |fills| ==> fills[i].size > 0.0
    ensures var b := Matching(fills); !ReportRaises(b.holdings, b.order)
  {
    var s := SortByTime(fills);
    forall i | 0 <= i < |s| ensures s[i].size > 0.0 {
      assert s[i] in multiset(fills);
    }
    ReplayPositive(s);
    var b := Replay(s);
    forall c | c in b.holdings ensures ObsPositive(b.holdings[c]) {
      assert HoldingsOf(b, c) == b.holdings[c];
    }
    PositiveReportSafe(b.holdings, b.order);
  }
}

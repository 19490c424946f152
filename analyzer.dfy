/** `AverageHoldingTimeAnalyzer`: the object whose two dictionaries the matcher resets
    and updates fill by fill. Each method is proved to compute exactly the matching
    function of the pure specification in `Matcher`. */
module Analyzer {
  import opened Fills
  import opened Matcher
  import opened Statistics
  import opened Decisions

  class AverageHoldingTimeAnalyzer {
    const userAddress: string
    var fills: seq<Fill>
    /** `holding_times`: coin -> observations, in the order they were emitted. */
    var holdingTimes: map<string, seq<Obs>>
    /** The insertion order of `holdingTimes`' keys (the order a Python dict iterates in). */
    var coinOrder: seq<string>
    /** `positions`: coin -> FIFO queue of open lots, head first. */
    var positions: map<string, seq<Lot>>

    /** The dictionaries as a value of the specification. */
    function State(): Book
      reads this
    {
      Book(positions, holdingTimes, coinOrder)
    }

    constructor (userAddress: string)
      ensures this.userAddress == userAddress && fills == []
      ensures State() == Empty
    {
      this.userAddress := userAddress;
      fills := [];
      holdingTimes := map[];
      coinOrder := [];
      positions := map[];
    }

    /** `_handle_opening`: a new lot at the tail of the coin's queue. */
    method HandleOpening(coin: string, size: real, time: int, price: real)
      modifies this
      ensures State() == OpenLot(old(State()), coin, Lot(time, size, price))
      ensures fills == old(fills)
    {
      var queue := if coin in positions then positions[coin] else [];
      positions := positions[coin := queue + [Lot(time, size, price)]];
    }

    /** `_handle_closing`: consume `size` from the head of the coin's queue (FIFO). */
    method HandleClosing(coin: string, size: real, time: int)
      modifies this
      ensures State() == CloseFill(old(State()), coin, size, time)
      ensures fills == old(fills)
    {
      ghost var b0 := State();
      ghost var target := Close(QueueOf(b0, coin), size, time);
      ghost var emitted: seq<Obs> := [];
      var remainingSize := size;
      // `self.positions[coin]`, the list the loop pops from and shrinks in place; it is
      // stored back under `coin` below once the loop has read it
      var queue := if coin in positions then positions[coin] else [];
      while remainingSize > 0.0 && queue != []
        invariant fills == old(fills)
        invariant positions == b0.positions
        invariant holdingTimes == Record(b0, coin, emitted).holdings
        invariant coinOrder == Record(b0, coin, emitted).order
        // what is emitted so far, followed by a close of what is left, is the whole close
        invariant Resume(emitted, Close(queue, remainingSize, time)) == target
        decreases |queue|, if remainingSize > 0.0 then 1 else 0
      {
        var o: Obs;
        queue, remainingSize, o := CloseHead(coin, queue, remainingSize, time, b0, emitted);
        emitted := emitted + [o];
      }
      if size > 0.0 {
        // the loop condition read `self.positions[coin]`, creating the key if missing
        positions := positions[coin := queue];
        CloseDone(b0, coin, size, time, queue, remainingSize, emitted);
      }
    }

    /** One pass of the closing loop: match the head lot and record the observation. */
    method CloseHead(coin: string, queue: seq<Lot>, remainingSize: real, time: int, ghost b0: Book, ghost emitted: seq<Obs>)
      returns (queue': seq<Lot>, remaining': real, o: Obs)
      requires remainingSize > 0.0 && queue != []
      requires holdingTimes == Record(b0, coin, emitted).holdings && coinOrder == Record(b0, coin, emitted).order
      modifies this
      ensures holdingTimes == Record(b0, coin, emitted + [o]).holdings && coinOrder == Record(b0, coin, emitted + [o]).order
      ensures positions == old(positions) && fills == old(fills)
      ensures Resume(emitted, Close(queue, remainingSize, time)) == Resume(emitted + [o], Close(queue', remaining', time))
      ensures |queue'| < |queue| || (|queue'| == |queue| && remaining' <= 0.0)
    {
      var position := queue[0];
      if position.size <= remainingSize {
        // close this lot whole
        o := Observe(position.time, position.size, time);
        PopStep(emitted, queue, remainingSize, time);
        remaining' := remainingSize - position.size;
        queue' := queue[1..];
      } else {
        // partial close: the lot stays at the head, reduced
        o := Observe(position.time, remainingSize, time);
        CutStep(emitted, queue, remainingSize, time);
        queue' := [position.(size := position.size - remainingSize)] + queue[1..];
        remaining' := 0.0;
      }
      RecordTwice(b0, coin, emitted, o);
      if coin !in holdingTimes {
        assert [] + [o] == [o];
        coinOrder := coinOrder + [coin];
        holdingTimes := holdingTimes[coin := [o]];
      } else {
        holdingTimes := holdingTimes[coin := holdingTimes[coin] + [o]];
      }
    }

    /** `calculate_average_holding_time`: reset both dictionaries, then process the fills
        in stable time order; returns the two dictionaries. */
    method CalculateAverageHoldingTime() returns (holdings: map<string, seq<Obs>>, queues: map<string, seq<Lot>>)
      modifies this
      ensures State() == Matching(fills)
      ensures holdings == holdingTimes && queues == positions
      ensures fills == old(fills)
    {
      positions := map[];
      holdingTimes := map[];
      coinOrder := [];
      var fillsSorted := SortByTime(fills);
      for i := 0 to |fillsSorted|
        invariant fills == old(fills)
        invariant State() == Replay(fillsSorted[..i])
      {
        var fill := fillsSorted[i];
        var isOpening := Contains(fill.dir, "Open");
        if isOpening {
          HandleOpening(fill.coin, fill.size, fill.time, fill.price);
        } else {
          HandleClosing(fill.coin, fill.size, fill.time);
        }
        assert fillsSorted[..i + 1][..i] == fillsSorted[..i];
      }
      assert fillsSorted[..|fillsSorted|] == fillsSorted;
      holdings, queues := holdingTimes, positions;
    }

    /** The computation in `analyze`, with the fetched fills as a parameter: no fills,
        nothing returned; otherwise match, pool, apply the one-hour threshold, and
        print the report, any exception on the way being caught. */
    method Analyze(fetched: seq<Fill>) returns (r: Option<string>)
      modifies this
      ensures fills == fetched
      ensures fetched == [] ==> r == None && State() == old(State())
      ensures fetched != [] ==>
        State() == Matching(fetched) &&
        r == HighFrequency(userAddress, GetOverallStatistics(holdingTimes, coinOrder), ReportRaises(holdingTimes, coinOrder))
    {
      fills := fetched;
      if fills == [] {
        return None;
      }
      var _, _ := CalculateAverageHoldingTime();
      var overall := GetOverallStatistics(holdingTimes, coinOrder);
      // `print_statistics` runs only below the threshold; its per-coin loop may raise
      var reportRaises := ReportRaises(holdingTimes, coinOrder);
      r := HighFrequency(userAddress, overall, reportRaises);
    }
  }

  /** A close resumed after `e` was already emitted. */
  function Resume(e: seq<Obs>, c: Closing): Closing {
    Closing(c.queue, e + c.emitted)
  }

  /** One pop of the closing loop: the head lot is closed whole. */
  lemma PopStep(e: seq<Obs>, q: seq<Lot>, remaining: real, time: int)
    requires remaining > 0.0 && q != [] && q[0].size <= remaining
    ensures Resume(e, Close(q, remaining, time)) ==
      Resume(e + [Observe(q[0].time, q[0].size, time)], Close(q[1..], remaining - q[0].size, time))
  {
    var rest := Close(q[1..], remaining - q[0].size, time);
    assert e + ([Observe(q[0].time, q[0].size, time)] + rest.emitted) ==
      (e + [Observe(q[0].time, q[0].size, time)]) + rest.emitted;
  }

  /** The last step of the closing loop when the head lot is larger than what is left. */
  lemma CutStep(e: seq<Obs>, q: seq<Lot>, remaining: real, time: int)
    requires remaining > 0.0 && q != [] && q[0].size > remaining
    ensures Resume(e, Close(q, remaining, time)) ==
      Resume(e + [Observe(q[0].time, remaining, time)], Close([q[0].(size := q[0].size - remaining)] + q[1..], 0.0, time))
  {
    assert e + [Observe(q[0].time, remaining, time)] + [] == e + [Observe(q[0].time, remaining, time)];
  }

  /** When the closing loop stops, what it emitted and the queue it holds are the close. */
  lemma CloseDone(b: Book, coin: string, size: real, time: int, queue: seq<Lot>, remaining: real, e: seq<Obs>)
    requires size > 0.0 && (remaining <= 0.0 || queue == [])
    requires Resume(e, Close(queue, remaining, time)) == Close(QueueOf(b, coin), size, time)
    ensures CloseFill(b, coin, size, time) == Record(b.(positions := b.positions[coin := queue]), coin, e)
  {
    assert e + [] == e;
  }

  /** Appending observations one at a time is appending them all at once. */
  lemma RecordTwice(b: Book, coin: string, e: seq<Obs>, o: Obs)
    ensures Record(Record(b, coin, e), coin, [o]) == Record(b, coin, e + [o])
  {
    if e == [] {
      assert e + [o] == [o];
    } else {
      var r := Record(b, coin, e);
      assert coin in r.holdings;
      assert HoldingsOf(r, coin) + [o] == HoldingsOf(b, coin) + (e + [o]);
      assert r.holdings == b.holdings[coin := HoldingsOf(b, coin) + e];
    }
  }
}

/** The FIFO position matcher as functions: what one closing fill does to a
    coin's queue, what one fill does to the whole book, and what replaying a
    list of fills builds. The imperative analyzer is proved against these. */
module Matcher {
  import opened Fills

  /** Sum of the open sizes of a queue. */
  function Total(q: seq<Lot>): real {
    if q == [] then 0.0 else q[0].size + Total(q[1..])
  }

  /** Sum of the matched sizes of a list of observations. */
  function Matched(obs: seq<Obs>): real {
    if obs == [] then 0.0 else obs[0].size + Matched(obs[1..])
  }

  lemma {:induction false} MatchedAppend(a: seq<Obs>, b: seq<Obs>)
    ensures Matched(a + b) == Matched(a) + Matched(b)
    decreases |a|
  {
    if a == [] {
      assert a + b == b;
    } else {
      assert (a + b)[1..] == a[1..] + b;
      MatchedAppend(a[1..], b);
    }
  }

  lemma {:induction false} TotalAppend(a: seq<Lot>, b: seq<Lot>)
    ensures Total(a + b) == Total(a) + Total(b)
    decreases |a|
  {
    if a == [] {
      assert a + b == b;
    } else {
      assert (a + b)[1..] == a[1..] + b;
      TotalAppend(a[1..], b);
    }
  }

  function Min(x: real, y: real): real {
    if x <= y then x else y
  }

  /** What a closing fill leaves: the coin's remaining queue and the observations emitted. */
  datatype Closing = Closing(queue: seq<Lot>, emitted: seq<Obs>)

  /** The `while remaining_size > 0 and queue` loop of the closing handler, on values:
      a head lot no larger than what is left is closed whole and popped, a larger one
      is reduced in place, and whatever is left once the queue is empty is dropped. */
  function Close(q: seq<Lot>, remaining: real, time: int): (c: Closing)
    // neither the queue nor the observations outgrow the queue closed against
    ensures |c.queue| <= |q| && |c.emitted| <= |q|
    decreases |q|
  {
    if remaining <= 0.0 || q == [] then Closing(q, [])
    else if q[0].size <= remaining then
      var rest := Close(q[1..], remaining - q[0].size, time);
      Closing(rest.queue, [Observe(q[0].time, q[0].size, time)] + rest.emitted)
    else
      Closing([q[0].(size := q[0].size - remaining)] + q[1..], [Observe(q[0].time, remaining, time)])
  }

  /** Quantity is conserved: what is matched leaves the queue, and nothing else does. */
  lemma {:induction false} CloseConserves(q: seq<Lot>, remaining: real, time: int)
    ensures var c := Close(q, remaining, time); Total(c.queue) + Matched(c.emitted) == Total(q)
    decreases |q|
  {
    if remaining > 0.0 && q != [] {
      if q[0].size <= remaining {
        CloseConserves(q[1..], remaining - q[0].size, time);
      } else {
        var c := Close(q, remaining, time);
        assert c.queue[1..] == q[1..];
        assert c.emitted[1..] == [];
      }
    }
  }

  /** The i-th observation is for the i-th lot of the queue, closed at `time`. */
  lemma {:induction false} CloseTimes(q: seq<Lot>, remaining: real, time: int)
    ensures var c := Close(q, remaining, time);
      forall i :: 0 <= i < |c.emitted| ==> c.emitted[i].openTime == q[i].time && c.emitted[i].closeTime == time
    decreases |q|
  {
    if remaining > 0.0 && q != [] && q[0].size <= remaining {
      CloseTimes(q[1..], remaining - q[0].size, time);
      var c, rest := Close(q, remaining, time), Close(q[1..], remaining - q[0].size, time);
      forall i | 0 < i < |c.emitted| ensures c.emitted[i].openTime == q[i].time {
        assert c.emitted[i] == rest.emitted[i - 1];
        assert q[i] == q[1..][i - 1];
      }
    }
  }

  /** `q'` is `q` with `k` lots popped from the front and, possibly, the new head
      reduced in size; every other lot keeps its place, time, price and size. */
  predicate HeadConsumed(q: seq<Lot>, q': seq<Lot>, k: nat) {
    k <= |q| && |q'| == |q| - k &&
    (q' != [] ==>
       q'[1..] == q[k + 1..] &&
       (q'[0] == q[k] ||
        (q'[0].time == q[k].time && q'[0].price == q[k].price && q'[0].size < q[k].size)))
  }

  /** The observations of a close against `q` ending with queue `q'`: one per lot
      popped, for its whole size, then at most one for the part cut off the new head. */
  predicate EmittedFor(q: seq<Lot>, q': seq<Lot>, emitted: seq<Obs>, time: int)
    requires |q'| <= |q|
  {
    var k := |q| - |q'|;
    (|emitted| == k || (|emitted| == k + 1 && q' != [] &&
       emitted[k] == Observe(q[k].time, q[k].size - q'[0].size, time))) &&
    (forall i :: 0 <= i < k ==> emitted[i] == Observe(q[i].time, q[i].size, time))
  }

  /** Only the head of the queue changes: lots are popped from the front, the new head
      may be reduced, and every later lot is untouched. */
  lemma {:induction false} CloseConsumesHead(q: seq<Lot>, remaining: real, time: int)
    ensures var c := Close(q, remaining, time); HeadConsumed(q, c.queue, |q| - |c.queue|)
    decreases |q|
  {
    if remaining > 0.0 && q != [] && q[0].size <= remaining {
      var rest := Close(q[1..], remaining - q[0].size, time);
      CloseConsumesHead(q[1..], remaining - q[0].size, time);
      var k := |q| - |rest.queue|;
      if rest.queue != [] {
        assert q[k + 1..] == q[1..][k..];
        assert q[k] == q[1..][k - 1];
      }
    }
  }

  /** The observations of a close are exactly the lots consumed from the front, in
      queue order: each popped lot whole, then the part cut off the new head. */
  lemma {:induction false} CloseEmitsConsumed(q: seq<Lot>, remaining: real, time: int)
    ensures var c := Close(q, remaining, time); EmittedFor(q, c.queue, c.emitted, time)
    decreases |q|
  {
    if remaining > 0.0 && q != [] && q[0].size <= remaining {
      var rest := Close(q[1..], remaining - q[0].size, time);
      CloseEmitsConsumed(q[1..], remaining - q[0].size, time);
      EmittedForCons(q, rest.queue, rest.emitted, time);
    }
  }

  /** The recursive case of `CloseEmitsConsumed`: the head lot was popped whole. */
  lemma EmittedForCons(q: seq<Lot>, q': seq<Lot>, e: seq<Obs>, time: int)
    requires q != [] && |q'| <= |q| - 1 && EmittedFor(q[1..], q', e, time)
    ensures EmittedFor(q, q', [Observe(q[0].time, q[0].size, time)] + e, time)
  {
    var e' := [Observe(q[0].time, q[0].size, time)] + e;
    var k := |q| - |q'|;
    forall i | 0 < i < k ensures e'[i] == Observe(q[i].time, q[i].size, time) {
      assert e'[i] == e[i - 1];
      assert q[i] == q[1..][i - 1];
    }
    if |e'| == k + 1 {
      assert e'[k] == e[k - 1];
      assert q[k] == q[1..][k - 1];
    }
  }

  /** With positive lots and a non-negative close size S: the matched sizes sum to
      min(S, Q) for the queue total Q, every lot left is positive and so is every
      observation; the excess over Q (if any) produces nothing. */
  lemma {:induction false} ClosePositive(q: seq<Lot>, remaining: real, time: int)
    requires forall i :: 0 <= i < |q| ==> q[i].size > 0.0
    requires remaining >= 0.0
    ensures var c := Close(q, remaining, time);
      Matched(c.emitted) == Min(remaining, Total(q)) &&
      Total(c.queue) == Total(q) - Min(remaining, Total(q)) &&
      (forall i :: 0 <= i < |c.queue| ==> c.queue[i].size > 0.0) &&
      (forall i :: 0 <= i < |c.emitted| ==> c.emitted[i].size > 0.0)
    decreases |q|
  {
    TotalPositive(q);
    if remaining <= 0.0 || q == [] {
    } else if q[0].size <= remaining {
      ClosePositive(q[1..], remaining - q[0].size, time);
    } else {
      var c := Close(q, remaining, time);
      assert c.queue[1..] == q[1..];
      TotalPositive(q[1..]);
      forall i | 0 <= i < |c.queue| ensures c.queue[i].size > 0.0 {
        if i > 0 { assert c.queue[i] == q[i]; }
      }
    }
  }

  lemma {:induction false} TotalPositive(q: seq<Lot>)
    requires forall i :: 0 <= i < |q| ==> q[i].size > 0.0
    ensures Total(q) >= 0.0
    ensures q != [] ==> Total(q) > 0.0
    decreases |q|
  {
    if q != [] {
      TotalPositive(q[1..]);
    }
  }

  /** Lots opened no later than the closing fill give non-negative holding times,
      and the lots left are still no later than it. */
  lemma CloseNotBeforeOpen(q: seq<Lot>, remaining: real, time: int)
    requires LotsNoLaterThan(q, time)
    ensures ObsNonNegative(Close(q, remaining, time).emitted)
    ensures LotsNoLaterThan(Close(q, remaining, time).queue, time)
  {
    var c := Close(q, remaining, time);
    CloseConsumesHead(q, remaining, time);
    CloseTimes(q, remaining, time);
    var k := |q| - |c.queue|;
    assert HeadConsumed(q, c.queue, k);
    forall i | 0 <= i < |c.emitted| ensures c.emitted[i].hours >= 0.0 {
      assert c.emitted[i].openTime == q[i].time;
    }
    forall i | 0 <= i < |c.queue| ensures c.queue[i].time <= time {
      if i > 0 { assert c.queue[i] == q[k + i]; } else { assert c.queue[0].time == q[k].time; }
    }
  }

  // ---------------------------------------------------------------------------
  // The book: every coin's queue and every coin's observations

  /** The analyzer's two dictionaries, plus the insertion order of the coins in
      `holdings`, which is the order Python iterates that dictionary in. */
  datatype Book = Book(positions: map<string, seq<Lot>>, holdings: map<string, seq<Obs>>, order: seq<string>)

  /** The state after the reset at the start of a run. */
  const Empty: Book := Book(map[], map[], [])

  /** `positions[coin]` with defaultdict semantics: a missing coin reads as empty. */
  function QueueOf(b: Book, coin: string): seq<Lot> {
    if coin in b.positions then b.positions[coin] else []
  }

  /** `holding_times[coin]` with defaultdict semantics. */
  function HoldingsOf(b: Book, coin: string): seq<Obs> {
    if coin in b.holdings then b.holdings[coin] else []
  }

  /** A coin appears in `holdings` only once it has an observation, and `order`
      lists exactly those coins, each once. */
  ghost predicate Valid(b: Book) {
    (forall i, j :: 0 <= i < j < |b.order| ==> b.order[i] != b.order[j]) &&
    (forall c :: c in b.holdings <==> c in b.order) &&
    (forall c :: c in b.holdings ==> b.holdings[c] != [])
  }

  /** Appending `obs` to `holding_times[coin]`, one `append` at a time: the key is
      created by the first append, so nothing changes when `obs` is empty. */
  function Record(b: Book, coin: string, obs: seq<Obs>): (r: Book)
    ensures r.positions == b.positions
    ensures r.holdings.Keys <= b.holdings.Keys + {coin} && |r.order| <= |b.order| + 1
  {
    if obs == [] then b
    else
      var order := if coin in b.holdings then b.order else b.order + [coin];
      Book(b.positions, b.holdings[coin := HoldingsOf(b, coin) + obs], order)
  }

  /** Recording keeps the key order consistent, extends the coin's observations by
      `obs` and leaves every other coin's observations alone. */
  lemma RecordEffect(b: Book, coin: string, obs: seq<Obs>)
    ensures Valid(b) ==> Valid(Record(b, coin, obs))
    ensures HoldingsOf(Record(b, coin, obs), coin) == HoldingsOf(b, coin) + obs
    ensures forall c :: c != coin ==> HoldingsOf(Record(b, coin, obs), c) == HoldingsOf(b, c)
  {
    if obs == [] {
      assert HoldingsOf(b, coin) + obs == HoldingsOf(b, coin);
    }
  }

  /** The opening handler: one lot at the tail of the coin's queue, nothing else changes. */
  function OpenLot(b: Book, coin: string, lot: Lot): (r: Book)
    ensures r.holdings == b.holdings && r.order == b.order
    ensures QueueOf(r, coin) == QueueOf(b, coin) + [lot]
    ensures forall c :: c != coin ==> QueueOf(r, c) == QueueOf(b, c)
  {
    b.(positions := b.positions[coin := QueueOf(b, coin) + [lot]])
  }

  /** The closing handler. The loop condition reads `positions[coin]` only once
      `remaining_size > 0` holds, and that read creates an empty queue for a coin
      never opened: after a close of positive size the key is present, while a close
      of size zero or less reads nothing and changes nothing. */
  function CloseFill(b: Book, coin: string, size: real, time: int): (r: Book)
    ensures size > 0.0 ==> r.positions.Keys == b.positions.Keys + {coin}
    ensures size <= 0.0 ==> r == b
    ensures r.holdings.Keys <= b.holdings.Keys + {coin} && |r.order| <= |b.order| + 1
  {
    if size <= 0.0 then b
    else
      var c := Close(QueueOf(b, coin), size, time);
      Record(b.(positions := b.positions[coin := c.queue]), coin, c.emitted)
  }

  /** A close replaces the coin's queue by what `Close` leaves, appends what it emits
      to the coin's observations, and leaves every other coin alone. */
  lemma CloseFillEffect(b: Book, coin: string, size: real, time: int)
    ensures Valid(b) ==> Valid(CloseFill(b, coin, size, time))
    ensures var r, c := CloseFill(b, coin, size, time), Close(QueueOf(b, coin), size, time);
      QueueOf(r, coin) == c.queue && HoldingsOf(r, coin) == HoldingsOf(b, coin) + c.emitted
    ensures var r := CloseFill(b, coin, size, time);
      forall c :: c != coin ==> QueueOf(r, c) == QueueOf(b, c) && HoldingsOf(r, c) == HoldingsOf(b, c)
  {
    if size > 0.0 {
      var c := Close(QueueOf(b, coin), size, time);
      RecordEffect(b.(positions := b.positions[coin := c.queue]), coin, c.emitted);
    }
  }

  /** One iteration of the loop over the sorted fills. */
  function Step(b: Book, f: Fill): (r: Book)
    // `positions[coin]` is created by an opening and by a close of positive size
    ensures r.positions.Keys == b.positions.Keys + (if IsOpening(f) || f.size > 0.0 then {f.coin} else {})
    ensures r.holdings.Keys <= b.holdings.Keys + {f.coin} && |r.order| <= |b.order| + 1
  {
    if IsOpening(f) then OpenLot(b, f.coin, Lot(f.time, f.size, f.price))
    else CloseFill(b, f.coin, f.size, f.time)
  }

  /** The book built by processing `fills` in the order given, from the empty book. */
  function Replay(fills: seq<Fill>): (r: Book)
    // a coin with a holding time has a `positions` entry, and each fill adds at most one coin to the key order
    ensures r.holdings.Keys <= r.positions.Keys && |r.order| <= |fills|
  {
    if fills == [] then Empty else Step(Replay(fills[..|fills| - 1]), fills[|fills| - 1])
  }

  /** Every book a run builds keeps the key order of `holdings` consistent. */
  lemma {:induction false} ReplayValid(fills: seq<Fill>)
    ensures Valid(Replay(fills))
    decreases |fills|
  {
    if fills != [] {
      var b, f := Replay(fills[..|fills| - 1]), fills[|fills| - 1];
      ReplayValid(fills[..|fills| - 1]);
      if !IsOpening(f) {
        CloseFillEffect(b, f.coin, f.size, f.time);
      }
    }
  }

  /** `calculate_average_holding_time`: sort by time (stably), then replay. */
  function Matching(fills: seq<Fill>): (r: Book)
    ensures r.holdings.Keys <= r.positions.Keys && |r.order| <= |fills|
  {
    Replay(SortByTime(fills))
  }

  // ---------------------------------------------------------------------------
  // Properties of a whole run

  /** Sum of the sizes of the opening fills for `coin`. */
  function Opened(fills: seq<Fill>, coin: string): real {
    if fills == [] then 0.0
    else
      var f := fills[|fills| - 1];
      Opened(fills[..|fills| - 1], coin) + (if IsOpening(f) && f.coin == coin then f.size else 0.0)
  }

  /** Quantity conservation over a run: for every coin, what is still open plus what
      was matched equals what was opened (quantity closed beyond the queue is dropped). */
  lemma {:induction false} ReplayConserves(fills: seq<Fill>, coin: string)
    ensures Total(QueueOf(Replay(fills), coin)) + Matched(HoldingsOf(Replay(fills), coin)) == Opened(fills, coin)
    decreases |fills|
  {
    if fills != [] {
      var init, f := fills[..|fills| - 1], fills[|fills| - 1];
      ReplayConserves(init, coin);
      var b := Replay(init);
      if !IsOpening(f) { CloseFillEffect(b, f.coin, f.size, f.time); }
      if f.coin == coin {
        if IsOpening(f) {
          TotalAppend(QueueOf(b, coin), [Lot(f.time, f.size, f.price)]);
        } else {
          var c := Close(QueueOf(b, coin), f.size, f.time);
          CloseConserves(QueueOf(b, coin), f.size, f.time);
          MatchedAppend(HoldingsOf(b, coin), c.emitted);
        }
      }
    }
  }

  lemma {:induction false} OpenedAppend(a: seq<Fill>, b: seq<Fill>, coin: string)
    ensures Opened(a + b, coin) == Opened(a, coin) + Opened(b, coin)
    decreases |b|
  {
    if b == [] {
      assert a + b == a;
    } else {
      assert (a + b)[..|a + b| - 1] == a + b[..|b| - 1];
      OpenedAppend(a, b[..|b| - 1], coin);
    }
  }

  /** The opened total does not depend on the order of the fills. */
  lemma {:induction false} OpenedPermutation(s: seq<Fill>, t: seq<Fill>, coin: string)
    requires multiset(s) == multiset(t)
    ensures Opened(s, coin) == Opened(t, coin)
    decreases |s|
  {
    if s == [] {
      assert |multiset(t)| == 0;
    } else {
      var init, x := s[..|s| - 1], s[|s| - 1];
      assert s == init + [x];
      assert x in multiset(t);
      var j :| 0 <= j < |t| && t[j] == x;
      var rest := t[..j] + t[j + 1..];
      MultisetCancel(init, rest, x, t, j);
      OpenedPermutation(init, rest, coin);
      OpenedRemove(t, j, coin);
      OpenedAppend(init, [x], coin);
    }
  }

  /** Taking one fill out of a sequence takes its share out of the opened total. */
  lemma OpenedRemove(t: seq<Fill>, j: int, coin: string)
    requires 0 <= j < |t|
    ensures Opened(t, coin) == Opened(t[..j] + t[j + 1..], coin) + Opened([t[j]], coin)
  {
    var before, after := t[..j], t[j + 1..];
    assert t == before + [t[j]] + after;
    OpenedAppend(before, after, coin);
    OpenedAppend(before, [t[j]], coin);
    OpenedAppend(before + [t[j]], after, coin);
  }

  lemma MultisetCancel(init: seq<Fill>, rest: seq<Fill>, x: Fill, t: seq<Fill>, j: int)
    requires 0 <= j < |t| && t[j] == x && rest == t[..j] + t[j + 1..]
    requires multiset(init + [x]) == multiset(t)
    ensures multiset(init) == multiset(rest)
  {
    assert t == t[..j] + [x] + t[j + 1..];
    assert multiset(t) == multiset(rest) + multiset{x};
    assert multiset(init + [x]) == multiset(init) + multiset{x};
    assert multiset(init) == multiset(init) + multiset{x} - multiset{x};
    assert multiset(rest) == multiset(rest) + multiset{x} - multiset{x};
  }

  /** Conservation for the run itself: sorting first changes nothing about the totals. */
  lemma MatchingConserves(fills: seq<Fill>, coin: string)
    ensures var b := Matching(fills);
      Total(QueueOf(b, coin)) + Matched(HoldingsOf(b, coin)) == Opened(fills, coin)
  {
    ReplayConserves(SortByTime(fills), coin);
    OpenedPermutation(SortByTime(fills), fills, coin);
  }

  /** A coin none of whose fills closes anything has no observations, and all it
      opened is still open. */
  lemma {:induction false} ReplayWithoutCloses(fills: seq<Fill>, coin: string)
    requires forall f :: f in fills && f.coin == coin ==> IsOpening(f)
    ensures HoldingsOf(Replay(fills), coin) == []
    ensures Total(QueueOf(Replay(fills), coin)) == Opened(fills, coin)
    decreases |fills|
  {
    if fills != [] {
      var init, f := fills[..|fills| - 1], fills[|fills| - 1];
      assert forall g :: g in init ==> g in fills;
      ReplayWithoutCloses(init, coin);
      if !IsOpening(f) { CloseFillEffect(Replay(init), f.coin, f.size, f.time); }
      ReplayConserves(fills, coin);
    }
  }

  /** The same for a whole run, in whatever order the fills arrive. */
  lemma MatchingWithoutCloses(fills: seq<Fill>, coin: string)
    requires forall f :: f in fills && f.coin == coin ==> IsOpening(f)
    ensures HoldingsOf(Matching(fills), coin) == []
    ensures Total(QueueOf(Matching(fills), coin)) == Opened(fills, coin)
  {
    var s := SortByTime(fills);
    forall f | f in s && f.coin == coin ensures IsOpening(f) {
      assert f in multiset(s);
    }
    ReplayWithoutCloses(s, coin);
    OpenedPermutation(s, fills, coin);
  }

  predicate LotsPositive(q: seq<Lot>) {
    forall i :: 0 <= i < |q| ==> q[i].size > 0.0
  }

  predicate ObsPositive(obs: seq<Obs>) {
    forall i :: 0 <= i < |obs| ==> obs[i].size > 0.0
  }

  /** Every lot and every observation of `b` has positive size. */
  ghost predicate AllPositive(b: Book) {
    forall c :: LotsPositive(QueueOf(b, c)) && ObsPositive(HoldingsOf(b, c))
  }

  lemma StepPositive(b: Book, f: Fill)
    requires AllPositive(b) && f.size > 0.0
    ensures AllPositive(Step(b, f))
  {
    forall c ensures LotsPositive(QueueOf(Step(b, f), c)) && ObsPositive(HoldingsOf(Step(b, f), c)) {
      CoinStepPositive(b, f, c);
    }
  }

  /** One step keeps the lots and observations of a single coin positive. */
  lemma CoinStepPositive(b: Book, f: Fill, c: string)
    requires LotsPositive(QueueOf(b, c)) && ObsPositive(HoldingsOf(b, c)) && f.size > 0.0
    ensures LotsPositive(QueueOf(Step(b, f), c)) && ObsPositive(HoldingsOf(Step(b, f), c))
  {
    if !IsOpening(f) {
      var q, h := QueueOf(b, c), HoldingsOf(b, c);
      CloseFillEffect(b, f.coin, f.size, f.time);
      if c == f.coin {
        ClosePositive(q, f.size, f.time);
        var cl := Close(q, f.size, f.time);
        assert HoldingsOf(Step(b, f), c) == h + cl.emitted;
      }
    }
  }

  /** Given positive fill sizes, every queued lot and every observation is positive. */
  lemma {:induction false} ReplayPositive(fills: seq<Fill>)
    requires forall i :: 0 <= i < |fills| ==> fills[i].size > 0.0
    ensures AllPositive(Replay(fills))
    decreases |fills|
  {
    if fills != [] {
      ReplayPositive(fills[..|fills| - 1]);
      StepPositive(Replay(fills[..|fills| - 1]), fills[|fills| - 1]);
    }
  }

  predicate LotsNoLaterThan(q: seq<Lot>, t: int) {
    forall i :: 0 <= i < |q| ==> q[i].time <= t
  }

  predicate ObsNonNegative(obs: seq<Obs>) {
    forall i :: 0 <= i < |obs| ==> obs[i].hours >= 0.0
  }

  /** No lot of `b` was opened after `t`, and no observation closes before it opened. */
  ghost predicate InOrder(b: Book, t: int) {
    forall c :: LotsNoLaterThan(QueueOf(b, c), t) && ObsNonNegative(HoldingsOf(b, c))
  }

  lemma StepInOrder(b: Book, t: int, f: Fill)
    requires InOrder(b, t) && t <= f.time
    ensures InOrder(Step(b, f), f.time)
  {
    forall c ensures LotsNoLaterThan(QueueOf(Step(b, f), c), f.time) && ObsNonNegative(HoldingsOf(Step(b, f), c)) {
      CoinStepInOrder(b, t, f, c);
    }
  }

  /** One step in time order keeps a single coin's lots no later than the step and
      its holding times non-negative. */
  lemma CoinStepInOrder(b: Book, t: int, f: Fill, c: string)
    requires LotsNoLaterThan(QueueOf(b, c), t) && ObsNonNegative(HoldingsOf(b, c)) && t <= f.time
    ensures LotsNoLaterThan(QueueOf(Step(b, f), c), f.time) && ObsNonNegative(HoldingsOf(Step(b, f), c))
  {
    if IsOpening(f) {
      OpenInOrder(b, t, f, c);
    } else {
      CloseFillEffect(b, f.coin, f.size, f.time);
      if c == f.coin {
        CloseNotBeforeOpen(QueueOf(b, c), f.size, f.time);
        ObsAppendNonNegative(HoldingsOf(b, c), Close(QueueOf(b, c), f.size, f.time).emitted);
      } else {
        LotsLater(QueueOf(b, c), t, f.time);
      }
    }
  }

  /** An opening appends a lot at its own time and records nothing. */
  lemma OpenInOrder(b: Book, t: int, f: Fill, c: string)
    requires IsOpening(f) && LotsNoLaterThan(QueueOf(b, c), t) && t <= f.time
    ensures LotsNoLaterThan(QueueOf(Step(b, f), c), f.time) && HoldingsOf(Step(b, f), c) == HoldingsOf(b, c)
  {
    var q := QueueOf(b, c);
    if c == f.coin {
      var lot := Lot(f.time, f.size, f.price);
      forall i | 0 <= i < |q + [lot]| ensures (q + [lot])[i].time <= f.time {
        if i < |q| { assert (q + [lot])[i] == q[i]; }
      }
    } else {
      LotsLater(q, t, f.time);
    }
  }

  lemma LotsLater(q: seq<Lot>, t: int, t': int)
    requires LotsNoLaterThan(q, t) && t <= t'
    ensures LotsNoLaterThan(q, t')
  {
  }

  lemma ObsAppendNonNegative(h: seq<Obs>, e: seq<Obs>)
    requires ObsNonNegative(h) && ObsNonNegative(e)
    ensures ObsNonNegative(h + e)
  {
    forall i | 0 <= i < |h + e| ensures (h + e)[i].hours >= 0.0 {
      if i >= |h| { assert (h + e)[i] == e[i - |h|]; }
    }
  }

  /** Replaying fills in time order never yields a negative holding time. */
  lemma {:induction false} ReplaySortedInOrder(fills: seq<Fill>)
    requires SortedByTime(fills) && fills != []
    ensures InOrder(Replay(fills), fills[|fills| - 1].time)
    decreases |fills|
  {
    var init, f := fills[..|fills| - 1], fills[|fills| - 1];
    if init != [] {
      ReplaySortedInOrder(init);
      StepInOrder(Replay(init), init[|init| - 1].time, f);
    } else {
      StepInOrder(Empty, f.time, f);
    }
  }

  /** Because fills are sorted first, every holding time of a run is non-negative,
      whatever order the fills arrive in. */
  lemma MatchingNonNegative(fills: seq<Fill>)
    ensures forall c :: ObsNonNegative(HoldingsOf(Matching(fills), c))
  {
    var s := SortByTime(fills);
    if s != [] {
      ReplaySortedInOrder(s);
    }
  }
}

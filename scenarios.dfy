/** Worked runs of the matcher on small inputs, with the outcomes each run must
    produce, and the decision rules at their boundaries. */
module Scenarios {
  import opened Fills
  import opened Matcher
  import opened Statistics
  import opened Decisions

  const Hour: int := 3600000

  /** Neither closing direction contains "Open": they have no capital O. */
  lemma CloseDirections()
    ensures !Contains("Close Long", "Open") && !Contains("Close Short", "Open")
  {
    var long, short := "Close Long", "Close Short";
    assert forall i :: 0 <= i < |long| ==> long[i] != 'O';
    assert forall i :: 0 <= i < |short| ==> short[i] != 'O';
    ContainsNeedsHead(long, "Open");
    ContainsNeedsHead(short, "Open");
  }

  /** Replaying three fills is stepping through them in turn. */
  lemma ReplayThree(f0: Fill, f1: Fill, f2: Fill)
    ensures Replay([f0, f1, f2]) == Step(Step(Step(Empty, f0), f1), f2)
  {
    assert [f0][..0] == [];
    assert Replay([f0]) == Step(Empty, f0);
    assert [f0, f1][..1] == [f0];
    assert Replay([f0, f1]) == Step(Replay([f0]), f1);
    assert [f0, f1, f2][..2] == [f0, f1];
  }

  /** One lot of 10 closed in two parts: 4 after one hour, 6 after three hours.
      Two observations come out and nothing stays open. */
  lemma PartialClose(fills: seq<Fill>)
    requires fills == [
        Fill("BTC", 10.0, 0, "Open Long", 100.0),
        Fill("BTC", 4.0, Hour, "Close Long", 110.0),
        Fill("BTC", 6.0, 3 * Hour, "Close Long", 120.0)]
    ensures var b := Matching(fills);
      HoldingsOf(b, "BTC") == [Obs(1.0, 4.0, 0, Hour), Obs(3.0, 6.0, 0, 3 * Hour)] &&
      QueueOf(b, "BTC") == []
  {
    var f0, f1, f2 := fills[0], fills[1], fills[2];
    assert fills == [f0, f1, f2];
    SortSortedIsIdentity(fills);
    ReplayThree(f0, f1, f2);
    CloseDirections();
    var b1 := Step(Empty, f0);
    OpenTenLots(f0);
    PartialCloseSteps();
    CloseFillEffect(b1, "BTC", 4.0, Hour);
    var b2 := CloseFill(b1, "BTC", 4.0, Hour);
    CloseFillEffect(b2, "BTC", 6.0, 3 * Hour);
  }

  lemma OpenTenLots(f0: Fill)
    requires f0 == Fill("BTC", 10.0, 0, "Open Long", 100.0)
    ensures QueueOf(Step(Empty, f0), "BTC") == [Lot(0, 10.0, 100.0)] && HoldingsOf(Step(Empty, f0), "BTC") == []
  {
    assert "Open Long"[..4] == "Open";
  }

  /** The two closes of `PartialClose` against the queue each one finds. */
  lemma PartialCloseSteps()
    ensures Close([Lot(0, 10.0, 100.0)], 4.0, Hour) == Closing([Lot(0, 6.0, 100.0)], [Obs(1.0, 4.0, 0, Hour)])
    ensures Close([Lot(0, 6.0, 100.0)], 6.0, 3 * Hour) == Closing([], [Obs(3.0, 6.0, 0, 3 * Hour)])
    ensures [] + [Obs(1.0, 4.0, 0, Hour)] + [Obs(3.0, 6.0, 0, 3 * Hour)] ==
      [Obs(1.0, 4.0, 0, Hour), Obs(3.0, 6.0, 0, 3 * Hour)]
  {
  }

  /** Two lots of 5, one hour apart, then a close of 7 after two hours: the first lot
      closes whole after two hours, 2 of the second after one hour, and 3 stay open. */
  lemma MultiLotFifo(fills: seq<Fill>)
    requires fills == [
        Fill("ETH", 5.0, 0, "Open Short", 10.0),
        Fill("ETH", 5.0, Hour, "Open Short", 11.0),
        Fill("ETH", 7.0, 2 * Hour, "Close Short", 9.0)]
    ensures var b := Matching(fills);
      HoldingsOf(b, "ETH") == [Obs(2.0, 5.0, 0, 2 * Hour), Obs(1.0, 2.0, Hour, 2 * Hour)] &&
      QueueOf(b, "ETH") == [Lot(Hour, 3.0, 11.0)]
  {
    var f0, f1, f2 := fills[0], fills[1], fills[2];
    assert fills == [f0, f1, f2];
    SortSortedIsIdentity(fills);
    ReplayThree(f0, f1, f2);
    CloseDirections();
    OpenTwoLots(f0, f1);
    MultiLotClose();
    CloseFillEffect(Step(Step(Empty, f0), f1), "ETH", 7.0, 2 * Hour);
  }

  lemma OpenTwoLots(f0: Fill, f1: Fill)
    requires f0 == Fill("ETH", 5.0, 0, "Open Short", 10.0) && f1 == Fill("ETH", 5.0, Hour, "Open Short", 11.0)
    ensures var b := Step(Step(Empty, f0), f1);
      QueueOf(b, "ETH") == [Lot(0, 5.0, 10.0), Lot(Hour, 5.0, 11.0)] && HoldingsOf(b, "ETH") == []
  {
    assert "Open Short"[..4] == "Open";
    var b1 := Step(Empty, f0);
    assert QueueOf(b1, "ETH") == [Lot(0, 5.0, 10.0)] && HoldingsOf(b1, "ETH") == [];
  }

  /** The close of 7 in `MultiLotFifo`: the first lot goes whole, the second is cut. */
  lemma MultiLotClose()
    ensures Close([Lot(0, 5.0, 10.0), Lot(Hour, 5.0, 11.0)], 7.0, 2 * Hour) ==
      Closing([Lot(Hour, 3.0, 11.0)], [Obs(2.0, 5.0, 0, 2 * Hour), Obs(1.0, 2.0, Hour, 2 * Hour)])
    ensures [] + [Obs(2.0, 5.0, 0, 2 * Hour), Obs(1.0, 2.0, Hour, 2 * Hour)] ==
      [Obs(2.0, 5.0, 0, 2 * Hour), Obs(1.0, 2.0, Hour, 2 * Hour)]
  {
    var q := [Lot(0, 5.0, 10.0), Lot(Hour, 5.0, 11.0)];
    assert q[1..] == [Lot(Hour, 5.0, 11.0)];
    assert Close(q[1..], 2.0, 2 * Hour) == Closing([Lot(Hour, 3.0, 11.0)], [Obs(1.0, 2.0, Hour, 2 * Hour)]);
  }

  /** A close with nothing open emits nothing and leaves an empty queue. */
  lemma CloseWithoutOpen()
    ensures var b := Matching([Fill("SOL", 3.0, 0, "Close Long", 20.0)]);
      HoldingsOf(b, "SOL") == [] && QueueOf(b, "SOL") == [] && "SOL" in b.positions
  {
    var f := Fill("SOL", 3.0, 0, "Close Long", 20.0);
    assert [f][..0] == [];
    CloseDirections();
  }

  /** A close of size zero never reads the coin's queue, so it creates no key. */
  lemma ZeroSizeClose()
    ensures var b := Matching([Fill("SOL", 0.0, 0, "Close Long", 20.0)]);
      "SOL" !in b.positions && HoldingsOf(b, "SOL") == []
  {
    var f := Fill("SOL", 0.0, 0, "Close Long", 20.0);
    assert [f][..0] == [];
    CloseDirections();
  }

  /** Exactly one hour is shown in hours and exactly one day in days. */
  lemma FormatBoundaries()
    ensures FormatTime(1.0).unit == Hours && FormatTime(24.0).unit == Days
    ensures FormatTime(0.5) == Shown(30.0, Minutes) && FormatTime(36.0) == Shown(1.5, Days)
  {
  }

  /** An overall simple average of exactly one hour still counts as high frequency;
      an account without observations is not returned. */
  lemma ThresholdBoundaries(address: string, count: nat, weighted: real)
    ensures HighFrequency(address, Computed(OverallStats(count, 1.0, weighted)), false) == Some(address)
    ensures HighFrequency(address, NoData, false) == None
  {
  }
}

/** Trade executions ("fills"), open lots and holding observations, the
    direction test, and the stable sort by timestamp that precedes matching. */
module Fills {

  /** One execution as the exchange reports it: `coin`, `sz`, `time` (ms), `dir`, `px`. */
  datatype Fill = Fill(coin: string, size: real, time: int, dir: string, price: real)

  /** An open lot queued for a coin: opening time, size still open, opening price. */
  datatype Lot = Lot(time: int, size: real, price: real)

  /** One match of a closing fill against a lot. */
  datatype Obs = Obs(hours: real, size: real, openTime: int, closeTime: int)

  /** Milliseconds to hours: `ms / (1000 * 60 * 60)` as a true division. */
  function MsToHours(ms: int): (h: real)
    ensures h * 3600000.0 == ms as real
    ensures h >= 0.0 <==> ms >= 0
  {
    ms as real / 3600000.0
  }

  /** The observation for `size` units opened at `openTime` and closed at `closeTime`. */
  function Observe(openTime: int, size: real, closeTime: int): (o: Obs)
    ensures o.size == size && o.openTime == openTime && o.closeTime == closeTime
    ensures o.hours * 3600000.0 == (closeTime - openTime) as real
    ensures o.hours >= 0.0 <==> openTime <= closeTime
  {
    Obs(MsToHours(closeTime - openTime), size, openTime, closeTime)
  }

  /** `sub` occurs in `s` starting at index `i`. */
  predicate OccursAt(s: string, sub: string, i: int) {
    0 <= i <= |s| - |sub| && s[i..i + |sub|] == sub
  }

  /** Python's `sub in s` for strings, scanning from the left. */
  function Contains(s: string, sub: string): (b: bool)
    // the empty string occurs everywhere, and nothing longer than `s` occurs in it
    ensures sub == [] ==> b
    ensures b ==> |sub| <= |s|
    decreases |s|
  {
    if |s| < |sub| then false
    else s[..|sub|] == sub || Contains(s[1..], sub)
  }

  /** `Contains` holds exactly when `sub` occurs at some index of `s`. */
  lemma {:induction false} ContainsIsSubstring(s: string, sub: string)
    ensures Contains(s, sub) <==> exists i :: OccursAt(s, sub, i)
    decreases |s|
  {
    if |s| < |sub| {
    } else if s[..|sub|] == sub {
      assert OccursAt(s, sub, 0);
    } else {
      ContainsIsSubstring(s[1..], sub);
      if Contains(s[1..], sub) {
        var i :| OccursAt(s[1..], sub, i);
        assert s[i + 1..i + 1 + |sub|] == s[1..][i..i + |sub|];
        assert OccursAt(s, sub, i + 1);
      }
      if i :| OccursAt(s, sub, i) {
        assert i != 0;
        assert s[1..][i - 1..i - 1 + |sub|] == s[i..i + |sub|];
        assert OccursAt(s[1..], sub, i - 1);
      }
    }
  }

  /** A string without the first character of `sub` does not contain `sub`. */
  lemma {:induction false} ContainsNeedsHead(s: string, sub: string)
    requires sub != [] && sub[0] !in s
    ensures !Contains(s, sub)
    decreases |s|
  {
    if |s| >= |sub| {
      assert s[..|sub|][0] == s[0];
      ContainsNeedsHead(s[1..], sub);
    }
  }

  /** A fill opens a position when its direction contains "Open" ("Open Long", "Open Short"). */
  predicate IsOpening(f: Fill)
    ensures IsOpening(f) <==> exists i :: OccursAt(f.dir, "Open", i)
  {
    ContainsIsSubstring(f.dir, "Open");
    Contains(f.dir, "Open")
  }

  /** Timestamps never decrease along `s`. */
  predicate SortedByTime(s: seq<Fill>) {
    forall i, j :: 0 <= i < j < |s| ==> s[i].time <= s[j].time
  }

  /** The fills of `s` whose timestamp is `t`, in their order in `s`. */
  function AtTime(s: seq<Fill>, t: int): seq<Fill> {
    if s == [] then []
    else AtTime(s[..|s| - 1], t) + (if s[|s| - 1].time == t then [s[|s| - 1]] else [])
  }

  lemma {:induction false} AtTimeAppend(a: seq<Fill>, b: seq<Fill>, t: int)
    ensures AtTime(a + b, t) == AtTime(a, t) + AtTime(b, t)
    decreases |b|
  {
    if b == [] {
      assert a + b == a;
    } else {
      assert (a + b)[..|a + b| - 1] == a + b[..|b| - 1];
      AtTimeAppend(a, b[..|b| - 1], t);
    }
  }

  lemma AtTimeSingle(x: Fill, t: int)
    ensures AtTime([x], t) == if x.time == t then [x] else []
  {
    assert [x][..0] == [];
  }

  /** Places `x` after every element of `s` whose time is at most `x.time`. */
  function Insert(s: seq<Fill>, x: Fill): (r: seq<Fill>)
    requires SortedByTime(s)
    ensures SortedByTime(r)
    ensures multiset(r) == multiset(s) + multiset{x}
    ensures |r| == |s| + 1
    ensures r[|r| - 1] == if s == [] || s[|s| - 1].time <= x.time then x else s[|s| - 1]
  {
    if s == [] || s[|s| - 1].time <= x.time then
      SortedSnoc(s, x);
      s + [x]
    else
      var init, last := s[..|s| - 1], s[|s| - 1];
      SortedInit(s);
      var r' := Insert(init, x);
      InsertBehind(s, x, r');
      r' + [last]
  }

  /** The recursive case of `Insert`: `x` went into `s` without its last fill,
      which is later than `x` and so goes back on the end. */
  lemma InsertBehind(s: seq<Fill>, x: Fill, r': seq<Fill>)
    requires s != [] && SortedByTime(r') && r' != []
    requires multiset(r') == multiset(s[..|s| - 1]) + multiset{x}
    requires r'[|r'| - 1].time <= s[|s| - 1].time
    ensures SortedByTime(r' + [s[|s| - 1]])
    ensures multiset(r' + [s[|s| - 1]]) == multiset(s) + multiset{x}
  {
    SortedSnoc(r', s[|s| - 1]);
    assert s == s[..|s| - 1] + [s[|s| - 1]];
  }

  /** Appending a fill no earlier than the last keeps a sequence sorted. */
  lemma SortedSnoc(s: seq<Fill>, x: Fill)
    requires SortedByTime(s) && (s == [] || s[|s| - 1].time <= x.time)
    ensures SortedByTime(s + [x])
  {
  }

  /** `sorted(fills, key=lambda x: x['time'])`: Python's sort is stable. */
  function SortByTime(s: seq<Fill>): (r: seq<Fill>)
    ensures SortedByTime(r)
    ensures |r| == |s|
    ensures multiset(r) == multiset(s)
  {
    if s == [] then []
    else
      assert s == s[..|s| - 1] + [s[|s| - 1]];
      Insert(SortByTime(s[..|s| - 1]), s[|s| - 1])
  }

  /** Two fills with different times can trade places without changing any `AtTime`. */
  lemma AtTimeSwap(x: Fill, y: Fill, t: int)
    requires x.time != y.time
    ensures AtTime([x], t) + AtTime([y], t) == AtTime([y], t) + AtTime([x], t)
  {
    AtTimeSingle(x, t);
    AtTimeSingle(y, t);
  }

  lemma {:induction false} InsertStable(s: seq<Fill>, x: Fill, t: int)
    requires SortedByTime(s)
    ensures AtTime(Insert(s, x), t) == AtTime(s, t) + AtTime([x], t)
    decreases |s|
  {
    if s == [] || s[|s| - 1].time <= x.time {
      AtTimeAppend(s, [x], t);
    } else {
      var init, last := s[..|s| - 1], s[|s| - 1];
      assert s == init + [last];
      assert SortedByTime(init);
      var r' := Insert(init, x);
      assert Insert(s, x) == r' + [last];
      calc {
        AtTime(Insert(s, x), t);
        { AtTimeAppend(r', [last], t); }
        AtTime(r', t) + AtTime([last], t);
        { InsertStable(init, x, t); }
        AtTime(init, t) + AtTime([x], t) + AtTime([last], t);
        { AtTimeSwap(x, last, t); }
        AtTime(init, t) + (AtTime([last], t) + AtTime([x], t));
        { AtTimeAppend(init, [last], t); }
        AtTime(s, t) + AtTime([x], t);
      }
    }
  }

  /** Stability: for every timestamp, the fills carrying it keep their input order. */
  lemma {:induction false} SortByTimeStable(s: seq<Fill>, t: int)
    ensures AtTime(SortByTime(s), t) == AtTime(s, t)
    decreases |s|
  {
    if s != [] {
      var init, last := s[..|s| - 1], s[|s| - 1];
      assert s == init + [last];
      calc {
        AtTime(SortByTime(s), t);
        AtTime(Insert(SortByTime(init), last), t);
        { InsertStable(SortByTime(init), last, t); }
        AtTime(SortByTime(init), t) + AtTime([last], t);
        { SortByTimeStable(init, t); }
        AtTime(init, t) + AtTime([last], t);
        { AtTimeAppend(init, [last], t); }
        AtTime(s, t);
      }
    }
  }

  lemma SortedInit(s: seq<Fill>)
    requires SortedByTime(s) && s != []
    ensures SortedByTime(s[..|s| - 1])
    ensures |s| == 1 || s[|s| - 2].time <= s[|s| - 1].time
  {
  }

  /** Inserting the last fill of a sorted sequence back behind the others rebuilds it. */
  lemma InsertLast(s: seq<Fill>)
    requires SortedByTime(s) && s != []
    ensures SortedByTime(s[..|s| - 1])
    ensures Insert(s[..|s| - 1], s[|s| - 1]) == s
  {
    SortedInit(s);
    assert s == s[..|s| - 1] + [s[|s| - 1]];
  }

  /** Sorting already sorted fills changes nothing, so sorting twice equals sorting once. */
  lemma {:induction false} SortSortedIsIdentity(s: seq<Fill>)
    requires SortedByTime(s)
    ensures SortByTime(s) == s
    decreases |s|
  {
    if s != [] {
      InsertLast(s);
      SortSortedIsIdentity(s[..|s| - 1]);
    }
  }

  lemma SortByTimeIdempotent(s: seq<Fill>)
    ensures SortByTime(SortByTime(s)) == SortByTime(s)
  {
    SortSortedIsIdentity(SortByTime(s));
  }
}

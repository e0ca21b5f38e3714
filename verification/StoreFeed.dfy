/** The store program's feed: a live ring of recent rounds and a coarser
    historical ring, refining the append-only log of every submitted round.
    Arithmetic follows the release profile, where an overflow aborts the
    instruction and so leaves the account unchanged. */
module StoreFeed {
  import opened Bytes
  import opened Collections

  datatype Transmission = Transmission(slot: u64, timestamp: u32, answer: i128)

  const ZERO := Transmission(0, 0, 0)

  /** What a read of the feed can do: abort, find nothing, or find a round. */
  datatype Lookup = Abort | NotFound | Found(round: Transmission)

  const DISCRIMINATOR_LEN: nat := 8
  const HEADER_SIZE: nat := 192
  const DESCRIPTION_LEN: nat := 32
  const TRANSMISSION_SIZE: nat := 48
  /** The largest account the runtime allows. */
  const MAX_ACCOUNT_SIZE: nat := 10 * 1024 * 1024
  const THRESHOLD_MULTIPLIER: nat := 100000

  // ----- Rings over a log

  /** The slot that entry `q` of a log has in a ring of `n` elements. Entry 0 is the initial zero. */
  function Slot(q: nat, n: nat): (r: nat)
    requires n > 0
    ensures r < n
  {
    (q + n - 1) % n
  }

  /** The last `|ring|` entries of `log` (or all of them) are in their slots. */
  ghost predicate RingHolds(ring: seq<Transmission>, log: seq<Transmission>)
  {
    |ring| > 0 &&
    forall q {:trigger log[q]} :: 0 <= q < |log| && |log| <= q + |ring| ==> ring[Slot(q, |ring|)] == log[q]
  }

  /** Every `g`-th entry of `log`. */
  ghost function Coarse(log: seq<Transmission>, g: nat): (r: seq<Transmission>)
    requires |log| > 0 && g > 0
  {
    seq((|log| - 1) / g + 1, q requires 0 <= q <= (|log| - 1) / g => CoarseBound(log, g, q); log[q * g])
  }

  lemma CoarseBound(log: seq<Transmission>, g: nat, q: nat)
    requires |log| > 0 && g > 0 && q <= (|log| - 1) / g
    ensures q * g < |log|
  {
    var k := (|log| - 1) / g;
    assert q * g <= k * g <= |log| - 1;
  }

  lemma ModUnique(a: int, n: nat, q: int, r: int)
    requires n > 0 && a == q * n + r && 0 <= r < n
    ensures a % n == r && a / n == q
  {
    assert (q - a / n) * n == a % n - r;
    MulBound(q - a / n, n);
  }

  /** The index arithmetic of `fetch`: stepping back from the cursor, with wrap-around. */
  function StepBack(cursor: nat, offset: int, n: nat): int {
    if cursor >= offset then cursor - offset else n - (offset - cursor)
  }

  lemma StepBackIsSlot(last: nat, q: nat, n: nat)
    requires n > 0 && q <= last < q + n
    ensures Slot(q, n) == StepBack(last % n, last - q + 1, n)
  {
    var c, k, offset := last % n, last / n, last - q + 1;
    if c >= offset {
      ModUnique(q + n - 1, n, k + 1, c - offset);
    } else {
      ModUnique(q + n - 1, n, k, n + c - offset);
    }
  }

  lemma CursorStep(last: nat, n: nat)
    requires n > 0
    ensures Slot(last + 1, n) == last % n
    ensures (last + 1) % n == (last % n + 1) % n
  {
    var c, k := last % n, last / n;
    ModUnique(last + n, n, k + 1, c);
    if c + 1 < n {
      ModUnique(last + 1, n, k, c + 1);
    } else {
      ModUnique(last + 1, n, k + 1, 0);
      ModUnique(n, n, 1, 0);
    }
  }

  /** Writing at the cursor appends to the log a ring holds. */
  lemma RingPush(ring: seq<Transmission>, log: seq<Transmission>, x: Transmission)
    requires |log| > 0 && RingHolds(ring, log)
    ensures RingHolds(ring[(|log| - 1) % |ring| := x], log + [x])
  {
    var n, last := |ring|, |log| - 1;
    CursorStep(last, n);
    forall q | 0 <= q <= |log| && |log| + 1 <= q + n
      ensures ring[last % n := x][Slot(q, n)] == (log + [x])[q]
    {
      if q < |log| {
        StepBackIsSlot(last, q, n);
        assert ring[Slot(q, n)] == log[q];
      }
    }
  }

  /** The coarse log grows exactly when the new round number is a multiple of `g`. */
  lemma CoarsePush(log: seq<Transmission>, g: nat, x: Transmission)
    requires |log| > 0 && g > 0
    ensures Coarse(log + [x], g) == if |log| % g == 0 then Coarse(log, g) + [x] else Coarse(log, g)
  {
    var last := |log| - 1;
    var c, k := last % g, last / g;
    if c + 1 < g {
      ModUnique(|log|, g, k, c + 1);
      CoarseStays(log, g, x);
    } else {
      ModUnique(|log|, g, k + 1, 0);
      CoarseGrows(log, g, x, k);
    }
  }

  lemma CoarsePrefix(log: seq<Transmission>, g: nat, x: Transmission, q: nat)
    requires |log| > 0 && g > 0 && q <= (|log| - 1) / g <= |log| / g
    ensures Coarse(log + [x], g)[q] == Coarse(log, g)[q]
  {
    CoarseBound(log, g, q);
  }

  lemma CoarseStays(log: seq<Transmission>, g: nat, x: Transmission)
    requires |log| > 0 && g > 0 && |log| / g == (|log| - 1) / g
    ensures Coarse(log + [x], g) == Coarse(log, g)
  {
    forall q | 0 <= q < |Coarse(log, g)|
      ensures Coarse(log + [x], g)[q] == Coarse(log, g)[q]
    {
      CoarsePrefix(log, g, x, q);
    }
  }

  lemma CoarseGrows(log: seq<Transmission>, g: nat, x: Transmission, k: nat)
    requires |log| > 0 && g > 0 && k == (|log| - 1) / g && |log| / g == k + 1 && |log| % g == 0
    ensures Coarse(log + [x], g) == Coarse(log, g) + [x]
  {
    forall q | 0 <= q <= k
      ensures Coarse(log + [x], g)[q] == Coarse(log, g)[q]
    {
      CoarsePrefix(log, g, x, q);
    }
    assert (k + 1) * g == |log|;
  }

  /** The latest multiple of `g` up to `r`. */
  function RoundDown(r: nat, g: nat): (d: nat)
    requires g > 0
    ensures d <= r && d == g * (r / g)
  {
    r - r % g
  }

  // ----- What a read should return, in terms of the log alone

  /** `log[r]` is round r; `log[0]` is the zero transmission of an unwritten account. */
  ghost function FetchSpec(log: seq<Transmission>, live: nat, historical: nat, g: nat, r: nat): Lookup
    requires |log| > 0 && g > 0
  {
    var last := |log| - 1;
    if r == 0 || last < r then NotFound
    else if g * SaturatingSub(historical, 1) > U32_MAX then Abort
    else if last < r + live then Found(log[r])
    else HistoricalSpec(log, historical, g, r)
  }

  /** The rounds older than the live ones: those of the last `historical` multiples of `g`. */
  ghost function HistoricalSpec(log: seq<Transmission>, historical: nat, g: nat, r: nat): Lookup
    requires r < |log| && g > 0
  {
    var last := |log| - 1;
    if r <= RoundDown(last, g) && last / g < r / g + historical then Found(log[RoundDown(r, g)])
    else if historical == 0 && r == RoundDown(last, g) then Abort
    else NotFound
  }

  ghost function LatestSpec(log: seq<Transmission>, live: nat): Lookup
    requires |log| > 0 && live > 0
  {
    var last := |log| - 1;
    if last == 0 then NotFound
    else if last % live + live > U32_MAX then Abort
    else Found(log[last])
  }

  /** On a feed that fits in an account, reads abort in one case only: without a historical ring,
      `fetch` of the latest multiple of the granularity underflows once that round is no longer live. */
  lemma AccountSizeRulesOutOverflow(log: seq<Transmission>, live: nat, historical: nat, g: nat, r: nat)
    requires |log| > 0 && 0 < g <= U8_MAX && live > 0
    requires (live + historical) * 48 <= 10 * 1024 * 1024
    ensures LatestSpec(log, live) != Abort
    ensures FetchSpec(log, live, historical, g, r) == Abort <==>
              historical == 0 && 0 < r && r + live < |log| && r == RoundDown(|log| - 1, g)
  {
    assert g * SaturatingSub(historical, 1) <= 255 * historical;
  }

  /** After three rounds, a live ring of one and granularity two: round 2 is such a round. */
  lemma FetchAborts(x: Transmission)
    ensures FetchSpec([ZERO, x, x, x], 1, 0, 2, 2) == Abort
  {}

  /** Between the two rings there is a band of rounds that neither can return.
      It is empty whatever the number of rounds exactly when the live ring is
      at most one shorter than the granularity. */
  lemma UncoveredBand(live: nat, g: nat)
    requires live > 0 && g > 0
    ensures (forall last: nat, r: nat :: r <= last ==> !Uncovered(last, live, g, r)) <==> g <= live + 1
  {
    if g <= live + 1 {
    } else {
      var last := g - 1;
      assert last % g == last;
      assert Uncovered(last, live, g, 1);
    }
  }

  /** Newer than every historical round, older than every live one. */
  predicate Uncovered(last: nat, live: nat, g: nat, r: nat)
    requires g > 0
  {
    RoundDown(last, g) < r && r + live <= last
  }

  /** With a historical ring, every round it reaches back to is returned (to the granularity
      of the ring that holds it) unless it falls in that band. */
  lemma FoundUnlessUncovered(log: seq<Transmission>, live: nat, historical: nat, g: nat, r: nat)
    requires 0 < r < |log| && 0 < g && 0 < live && 0 < historical && g * (historical - 1) <= U32_MAX
    requires (|log| - 1) / g < r / g + historical
    ensures if Uncovered(|log| - 1, live, g, r) then FetchSpec(log, live, historical, g, r) == NotFound
            else FetchSpec(log, live, historical, g, r)
                 == Found(log[if |log| <= r + live then r else RoundDown(r, g)])
  {}

  /** After any five rounds, a live ring of one and granularity three: round 4 is lost,
      though the older round 3 is found. */
  lemma FetchLosesRound(log: seq<Transmission>)
    requires |log| == 6
    ensures FetchSpec(log, 1, 2, 3, 4) == NotFound
    ensures FetchSpec(log, 1, 2, 3, 3) == Found(log[3])
  {
    FoundUnlessUncovered(log, 1, 2, 3, 4);
    FoundUnlessUncovered(log, 1, 2, 3, 3);
  }

  // ----- The flag

  /** `is_valid`: whether an answer moved little enough, relative to the previous one. */
  predicate IsValid(threshold: u32, previous: i128, answer: i128)
  {
    if previous == 0 then true else
    var change := WrappingAbsDiff(previous, answer);
    if change * THRESHOLD_MULTIPLIER >= TWO_128 then false else
    var ratio := change * THRESHOLD_MULTIPLIER / Abs(previous);
    ratio <= threshold
  }

  function Abs(x: int): nat {
    if x < 0 then -x else x
  }

  /** `x as u128`: the two's-complement bits of an i128 read as an unsigned number. */
  function AsU128(x: int): nat {
    x % TWO_128
  }

  /** `abs_diff`, which subtracts in wrapping u128 arithmetic. */
  function WrappingAbsDiff(a: int, b: int): nat {
    if a < b then (AsU128(b) - AsU128(a)) % TWO_128 else (AsU128(a) - AsU128(b)) % TWO_128
  }

  lemma AbsDiffExact(a: i128, b: i128)
    ensures WrappingAbsDiff(a, b) == Abs(a - b)
  {
    assert AsU128(a) == if a < 0 then a + TWO_128 else a;
    assert AsU128(b) == if b < 0 then b + TWO_128 else b;
  }

  /** Over every pair of i128 answers, `is_valid` is the ratio test on unbounded
      integers, except that a change too large to scale in 128 bits is never valid. */
  lemma IsValidExact(threshold: u32, previous: i128, answer: i128)
    ensures IsValid(threshold, previous, answer) <==>
              previous == 0
              || (Abs(previous - answer) * 100_000 < (threshold + 1) * Abs(previous)
                  && Abs(previous - answer) * 100_000 < TWO_128)
  {
    if previous != 0 {
      AbsDiffExact(previous, answer);
      QuotientAtMost(Abs(previous - answer) * THRESHOLD_MULTIPLIER, Abs(previous), threshold);
    }
  }

  /** A jump across the whole i128 range is a ratio of 200001, within this threshold, and not valid. */
  lemma WideJumpRejected()
    ensures !IsValid(4_000_000, 0x7FFF_FFFF_FFFF_FFFF_FFFF_FFFF_FFFF_FFFF, -0x8000_0000_0000_0000_0000_0000_0000_0000)
    ensures Abs(0x7FFF_FFFF_FFFF_FFFF_FFFF_FFFF_FFFF_FFFF
                + 0x8000_0000_0000_0000_0000_0000_0000_0000) * 100_000
            < (4_000_000 + 1) * Abs(0x7FFF_FFFF_FFFF_FFFF_FFFF_FFFF_FFFF_FFFF)
  {
    IsValidExact(4_000_000, 0x7FFF_FFFF_FFFF_FFFF_FFFF_FFFF_FFFF_FFFF, -0x8000_0000_0000_0000_0000_0000_0000_0000);
  }

  lemma QuotientAtMost(a: nat, d: nat, t: nat)
    requires d > 0
    ensures a / d <= t <==> a < (t + 1) * d
  {
    var q := a / d;
    assert a == q * d + a % d;
    MulBound(t - q, d);
    MulBound(t + 1 - q, d);
    assert (t + 1) * d == (t + 1 - q) * d + q * d;
    assert (t - q) * d + d == (t + 1 - q) * d;
  }

  lemma LatestSlot(last: nat, n: nat)
    requires n > 0
    ensures (last % n + n - 1) % n == Slot(last, n)
  {
    StepBackIsSlot(last, last, n);
    var c := last % n;
    if c == 0 {
      ModUnique(n - 1, n, 0, n - 1);
    } else {
      ModUnique(c + n - 1, n, 1, c - 1);
    }
  }

  /** The range test of `fetch`, on rounds, is a range test on coarse entries. */
  lemma HistoricalRange(last: nat, r: nat, g: nat, h: nat)
    requires g > 0
    ensures SaturatingSub(RoundDown(last, g), g * SaturatingSub(h, 1)) <= r <==>
              if h == 0 then RoundDown(last, g) <= r else last / g < r / g + h
  {
    var (q, k) := (r / g, last / g);
    assert r == g * q + r % g;
    if h > 0 {
      var e := k - (h - 1);
      Distribute(g, k, h - 1);
      MulOrder(g, e, q);
      MulOrder(g, q, e);
    }
  }

  lemma CoarseOffset(last: nat, r: nat, g: nat, h: nat)
    requires g > 0 && r <= last
    requires SaturatingSub(RoundDown(last, g), g * SaturatingSub(h, 1)) <= r <= RoundDown(last, g)
    ensures r / g <= last / g
    ensures (RoundDown(last, g) - RoundDown(r, g)) / g == last / g - r / g
    ensures h > 0 ==> last / g < r / g + h
    ensures h == 0 ==> r == RoundDown(last, g)
  {
    HistoricalRange(last, r, g, h);
    var (q, k) := (r / g, last / g);
    assert r == g * q + r % g;
    MulOrder(g, k, q);
    Distribute(g, k, q);
    ModUnique(g * k - g * q, g, k - q, 0);
  }

  // ----- The two rings of an account, as values

  ghost predicate Rings(live: seq<Transmission>, historical: seq<Transmission>,
                        liveCursor: nat, historicalCursor: nat, g: nat, log: seq<Transmission>)
  {
    && g > 0 && |live| > 0 && |log| > 0
    && liveCursor == (|log| - 1) % |live|
    && RingHolds(live, log)
    && (if |historical| == 0 then historicalCursor == 0 else
        && historicalCursor == ((|log| - 1) / g) % |historical|
        && RingHolds(historical, Coarse(log, g)))
  }

  lemma ZeroedRings(live: seq<Transmission>, historical: seq<Transmission>, g: nat)
    requires g > 0 && |live| > 0
    requires forall i :: 0 <= i < |live| ==> live[i] == ZERO
    requires forall i :: 0 <= i < |historical| ==> historical[i] == ZERO
    ensures Rings(live, historical, 0, 0, g, [ZERO])
  {
    assert Coarse([ZERO], g) == [ZERO];
    ModUnique(0, |live|, 0, 0);
    if |historical| > 0 {
      ModUnique(0, |historical|, 0, 0);
    }
  }

  /** `insert` on the rings is an append to the log. */
  lemma InsertKeepsRings(live: seq<Transmission>, historical: seq<Transmission>,
                         lc: nat, hc: nat, g: nat, log: seq<Transmission>, x: Transmission)
    requires Rings(live, historical, lc, hc, g, log)
    ensures
      if |historical| > 0 && |log| % g == 0 then
        hc < |historical| &&
        Rings(live[lc := x], historical[hc := x], (lc + 1) % |live|, (hc + 1) % |historical|, g, log + [x])
      else
        Rings(live[lc := x], historical, (lc + 1) % |live|, hc, g, log + [x])
  {
    CursorStep(|log| - 1, |live|);
    RingPush(live, log, x);
    CoarsePush(log, g, x);
    if |historical| > 0 && |log| % g == 0 {
      var coarse := Coarse(log, g);
      CursorStep(|coarse| - 1, |historical|);
      RingPush(historical, coarse, x);
    }
    assert |Coarse(log + [x], g)| == |log| / g + 1;
  }

  lemma LiveRead(live: seq<Transmission>, log: seq<Transmission>, r: nat)
    requires RingHolds(live, log) && r < |log| <= r + |live|
    ensures var last := |log| - 1;
            var i := StepBack(last % |live|, last - r + 1, |live|);
            0 <= i < |live| && live[i] == log[r]
  {
    StepBackIsSlot(|log| - 1, r, |live|);
  }

  lemma HistoricalRead(historical: seq<Transmission>, log: seq<Transmission>, g: nat, r: nat)
    requires g > 0 && r < |log| && RingHolds(historical, Coarse(log, g))
    requires (|log| - 1) / g < r / g + |historical|
    ensures var last := |log| - 1;
            var i := StepBack((last / g) % |historical|, last / g - r / g + 1, |historical|);
            0 <= i < |historical| && historical[i] == log[RoundDown(r, g)]
  {
    var q := r / g;
    DivMonotone(r, |log| - 1, g);
    CoarseAt(log, g, q);
    LiveRead(historical, Coarse(log, g), q);
  }

  lemma CoarseAt(log: seq<Transmission>, g: nat, q: nat)
    requires |log| > 0 && g > 0 && q <= (|log| - 1) / g
    ensures g * q < |log| && Coarse(log, g)[q] == log[g * q]
  {
    CoarseBound(log, g, q);
  }

  // ----- Reads, as the program computes them

  /** An indexed read of a slice, which aborts out of bounds. */
  function At(slots: seq<Transmission>, i: int): Lookup {
    if 0 <= i < |slots| then Found(slots[i]) else Abort
  }

  function LatestFrom(live: seq<Transmission>, last: nat, liveCursor: nat): Lookup
    requires |live| > 0
  {
    if last == 0 then NotFound
    else if liveCursor + |live| > U32_MAX then Abort
    else At(live, (liveCursor + |live| - 1) % |live|)
  }

  function FetchFrom(live: seq<Transmission>, historical: seq<Transmission>,
                     last: nat, liveCursor: nat, historicalCursor: nat, g: nat, r: nat): Lookup
    requires g > 0
  {
    if r == 0 then NotFound
    else if last < r then NotFound
    else
      var liveStart := SaturatingSub(last, SaturatingSub(|live|, 1));
      var span := g * SaturatingSub(|historical|, 1);
      if span > U32_MAX then Abort
      else if liveStart <= r <= last then At(live, StepBack(liveCursor, last - r + 1, |live|))
      else HistoricalFrom(historical, last, historicalCursor, g, r)
  }

  function HistoricalFrom(historical: seq<Transmission>, last: nat, historicalCursor: nat, g: nat, r: nat): Lookup
    requires g > 0
  {
    var historicalEnd := RoundDown(last, g);
    var historicalStart := SaturatingSub(historicalEnd, g * SaturatingSub(|historical|, 1));
    if historicalStart <= r <= historicalEnd then
      At(historical, StepBack(historicalCursor, (historicalEnd - RoundDown(r, g)) / g + 1, |historical|))
    else NotFound
  }

  lemma LatestRefines(live: seq<Transmission>, lc: nat, log: seq<Transmission>)
    requires |log| > 0 && RingHolds(live, log) && lc == (|log| - 1) % |live|
    ensures LatestFrom(live, |log| - 1, lc) == LatestSpec(log, |live|)
  {
    LatestSlot(|log| - 1, |live|);
  }

  /** The cursor arithmetic of `fetch` returns what the log says, in bounds, for every round number. */
  lemma FetchRefines(live: seq<Transmission>, historical: seq<Transmission>,
                     lc: nat, hc: nat, g: nat, log: seq<Transmission>, r: nat)
    requires Rings(live, historical, lc, hc, g, log)
    ensures FetchFrom(live, historical, |log| - 1, lc, hc, g, r) == FetchSpec(log, |live|, |historical|, g, r)
  {
    var (last, h) := (|log| - 1, |historical|);
    if 0 < r <= last && g * SaturatingSub(h, 1) <= U32_MAX {
      if last < r + |live| {
        LiveRead(live, log, r);
      } else {
        HistoricalCase(historical, hc, g, log, r);
      }
    }
  }

  lemma HistoricalCase(historical: seq<Transmission>, hc: nat, g: nat, log: seq<Transmission>, r: nat)
    requires g > 0 && 0 < r < |log|
    requires if |historical| == 0 then hc == 0 else
             hc == ((|log| - 1) / g) % |historical| && RingHolds(historical, Coarse(log, g))
    ensures HistoricalFrom(historical, |log| - 1, hc, g, r) == HistoricalSpec(log, |historical|, g, r)
  {
    var (last, h) := (|log| - 1, |historical|);
    HistoricalRange(last, r, g, h);
    if SaturatingSub(RoundDown(last, g), g * SaturatingSub(h, 1)) <= r <= RoundDown(last, g) {
      CoarseOffset(last, r, g, h);
      if h > 0 {
        HistoricalRead(historical, log, g, r);
      }
    } else if h == 0 && r <= RoundDown(last, g) {
      DivMonotone(r, last, g);
    }
  }

  // ----- The account

  class Feed {
    var flagged: bool
    var flaggingThreshold: u32
    var latestRoundId: nat
    var granularity: nat
    var liveLength: nat
    /** Raw bytes, zero-padded. */
    var description: seq<byte>
    var liveCursor: nat
    var historicalCursor: nat
    var live: array<Transmission>
    var historical: array<Transmission>
    /** Every round ever submitted, after the zero transmission. */
    ghost var log: seq<Transmission>

    ghost predicate Valid()
      reads this, live, historical
    {
      && live != historical
      && 0 < granularity <= U8_MAX
      && 0 < live.Length == liveLength <= U32_MAX && historical.Length <= U32_MAX
      && 0 < |log| == latestRoundId + 1 <= U32_MAX + 1
      && log[0] == ZERO
      && Rings(live[..], historical[..], liveCursor, historicalCursor, granularity, log)
    }

    /** The zeroed account `create_feed` accepts. */
    constructor (description: seq<byte>, granularity: nat, liveLength: nat, historicalLength: nat)
      requires |description| <= DESCRIPTION_LEN
      requires 0 < granularity <= U8_MAX && 0 < liveLength <= U32_MAX && historicalLength <= U32_MAX
      ensures Valid() && fresh(live) && fresh(historical)
      ensures log == [ZERO] && !flagged && flaggingThreshold == 0
      ensures live.Length == liveLength && historical.Length == historicalLength && this.granularity == granularity
      ensures this.description == description + Repeat(0, DESCRIPTION_LEN - |description|)
    {
      this.description := description + Repeat(0, DESCRIPTION_LEN - |description|);
      flagged, flaggingThreshold := false, 0;
      latestRoundId, liveCursor, historicalCursor := 0, 0, 0;
      this.granularity, this.liveLength := granularity, liveLength;
      live := new Transmission[liveLength](i => ZERO);
      historical := new Transmission[historicalLength](i => ZERO);
      log := [ZERO];
      new;
      ZeroedRings(live[..], historical[..], granularity);
    }

    /** `insert`, which aborts when the round counter is exhausted. */
    method Insert(round: Transmission) returns (ok: bool)
      requires Valid()
      modifies this`latestRoundId, this`liveCursor, this`historicalCursor, this`log, live, historical
      ensures Valid()
      ensures ok <==> old(|log|) <= U32_MAX
      ensures log == if ok then old(log) + [round] else old(log)
    {
      if latestRoundId == U32_MAX {
        return false;
      }
      InsertKeepsRings(live[..], historical[..], liveCursor, historicalCursor, granularity, log, round);
      ghost var (ring, coarse) := (live[..], historical[..]);
      latestRoundId := latestRoundId + 1;
      log := log + [round];

      live[liveCursor] := round;
      assert live[..] == ring[liveCursor := round];
      liveCursor := (liveCursor + 1) % live.Length;

      if historical.Length == 0 {
        assert historical[..] == coarse;
        return true;
      }
      if latestRoundId % granularity == 0 {
        historical[historicalCursor] := round;
        assert historical[..] == coarse[historicalCursor := round];
        historicalCursor := (historicalCursor + 1) % historical.Length;
      } else {
        assert historical[..] == coarse;
      }
      return true;
    }

    function Latest(): (r: Lookup)
      requires Valid()
      reads this, live, historical
      ensures r == LatestSpec(log, liveLength)
    {
      LatestRefines(live[..], liveCursor, log);
      LatestFrom(live[..], latestRoundId, liveCursor)
    }

    function Fetch(roundId: nat): (r: Lookup)
      requires Valid()
      reads this, live, historical
      ensures r == FetchSpec(log, liveLength, historical.Length, granularity, roundId)
    {
      FetchRefines(live[..], historical[..], liveCursor, historicalCursor, granularity, log, roundId);
      FetchFrom(live[..], historical[..], latestRoundId, liveCursor, historicalCursor, granularity, roundId)
    }

    /** The round counter is not exhausted, and the latest round can be read. */
    ghost predicate HasRoom()
      reads this
    {
      |log| > 0 && liveLength > 0 && LatestSpec(log, liveLength) != Abort && |log| <= U32_MAX
    }

    /** `submit`: append the round, and raise the flag when it moved too far from the previous one. */
    method Submit(slot: u64, timestamp: u64, answer: i128) returns (ok: bool)
      requires Valid()
      modifies this, live, historical
      ensures Valid()
      ensures ok <==> old(HasRoom())
      ensures !ok ==> log == old(log) && flagged == old(flagged)
      ensures ok ==> log == old(log) + [Transmission(slot, timestamp % (U32_MAX + 1), answer)]
      ensures ok ==>
                (flagged <==> old(flagged) || (|log| > 2 && !IsValid(flaggingThreshold, log[|log| - 2].answer, answer)))
      ensures live == old(live) && historical == old(historical) && granularity == old(granularity)
      ensures liveLength == old(liveLength) && flaggingThreshold == old(flaggingThreshold)
    {
      var round := Transmission(slot, timestamp % (U32_MAX + 1), answer);
      var previous := Latest();
      if previous == Abort {
        return false;
      }
      ok := Insert(round);
      if ok && previous.Found? && !IsValid(flaggingThreshold, previous.round.answer, answer) {
        flagged := true;
      }
    }

    method LowerFlag()
      requires Valid()
      modifies this`flagged
      ensures Valid() && !flagged
    {
      flagged := false;
    }
  }

  /** The bytes an account needs for rings of these lengths. */
  function AccountSize(live: nat, historical: nat): nat {
    8 + 192 + (live + historical) * 48
  }

  /** `create_feed` on a zeroed account of `dataLen` bytes: the split of the account into rings. */
  method CreateFeed(dataLen: nat, description: seq<byte>, granularity: nat, liveLength: nat) returns (r: Option<Feed>)
    requires dataLen <= MAX_ACCOUNT_SIZE && granularity <= U8_MAX && liveLength <= U32_MAX
    ensures r.Some? <==>
              && 0 < granularity && 0 < liveLength && |description| <= DESCRIPTION_LEN
              && exists h: nat :: dataLen == AccountSize(liveLength, h)
    ensures r.Some? ==>
              var feed := r.value;
              && fresh(feed) && feed.Valid() && feed.log == [ZERO]
              && feed.liveLength == liveLength && feed.granularity == granularity
              && feed.description == description + Repeat(0, DESCRIPTION_LEN - |description|)
              && dataLen == AccountSize(feed.liveLength, feed.historical.Length)
  {
    if dataLen < DISCRIMINATOR_LEN + HEADER_SIZE {
      return None;
    }
    var len := dataLen - (DISCRIMINATOR_LEN + HEADER_SIZE);
    if len % TRANSMISSION_SIZE != 0 {
      return None;
    }
    var space := len / TRANSMISSION_SIZE;
    if liveLength > space || liveLength == 0 || granularity == 0 {
      return None;
    }
    var historicalLength := space - liveLength;
    assert dataLen == AccountSize(liveLength, historicalLength);
    if |description| > DESCRIPTION_LEN {
      return None;
    }
    var feed := new Feed(description, granularity, liveLength, historicalLength);
    return Some(feed);
  }
}

/** The node's own read of the latest round, by byte offset into the account. */
module TransmissionsCache {
  import opened Bytes
  import opened StoreFeed

  const ACCOUNT_DISCRIMINATOR_LEN: nat := 8
  const TRANSMISSIONS_HEADER_MAX_SIZE: nat := 192
  const TRANSMISSION_LEN: nat := 8 + 4 + 4 + 16 + 8 + 8

  /** The first byte of live slot `i` in the account, as `with_store` splits it. */
  function SlotOffset(i: nat): nat {
    200 + i * 48
  }

  /** `GetLatestTransmission`: the offset asked of the RPC, from the header's cursor and length. */
  method LatestTransmissionOffset(liveCursor: u32, liveLength: u32) returns (offset: nat)
    ensures liveCursor < liveLength ==>
              exists i: nat :: i < liveLength && offset == SlotOffset(i) && (i + 1) % liveLength == liveCursor
    ensures liveCursor > 0 ==> offset == SlotOffset(liveCursor - 1)
    ensures liveLength == 0 && liveCursor == 0 ==> offset == SlotOffset(U32_MAX)
  {
    var cursor := liveCursor;
    if cursor == 0 {
      cursor := liveLength;
    }
    // The decrement wraps around in 32 bits.
    cursor := if cursor == 0 then U32_MAX else cursor - 1;
    offset := ACCOUNT_DISCRIMINATOR_LEN + TRANSMISSIONS_HEADER_MAX_SIZE + cursor * TRANSMISSION_LEN;
    assert offset == SlotOffset(cursor);
    if liveCursor >= liveLength {
      return;
    }
    if liveCursor == 0 {
      ModUnique(liveLength, liveLength, 1, 0);
    } else {
      ModUnique(liveCursor, liveLength, 0, liveCursor);
    }
  }

  /** For every feed with at least one round, the byte range the node asks for is
      exactly the live slot holding the last round of the log, inside the live region. */
  method ReadLatest(feed: Feed) returns (offset: nat, ghost slot: nat)
    requires feed.Valid() && |feed.log| > 1
    ensures slot < feed.live.Length && offset == SlotOffset(slot)
    ensures feed.live[slot] == feed.log[|feed.log| - 1]
    ensures SlotOffset(0) <= offset && offset + TRANSMISSION_LEN <= SlotOffset(feed.liveLength)
  {
    offset := LatestTransmissionOffset(feed.liveCursor, feed.liveLength);
    slot :| slot < feed.liveLength && offset == SlotOffset(slot) && (slot + 1) % feed.liveLength == feed.liveCursor;
    PreviousSlot(feed.liveCursor, feed.liveLength, slot);
    LiveRead(feed.live[..], feed.log, |feed.log| - 1);
  }

  lemma PreviousSlot(cursor: nat, n: nat, i: nat)
    requires cursor < n && i < n && (i + 1) % n == cursor
    ensures i == StepBack(cursor, 1, n)
  {
    if i + 1 < n {
      ModUnique(i + 1, n, 0, i + 1);
    } else {
      ModUnique(i + 1, n, 1, 0);
    }
  }
}

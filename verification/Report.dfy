/** The 61-byte report: built by the node from observations, unpacked by the program. */
module Report {
  import opened Bytes
  import opened Collections
  import opened Ocr2Types
  import opened Sorting
  import opened Medians

  const TIMESTAMP_LEN: nat := 4
  const OBSERVERS_LEN: nat := 32
  const MEDIAN_LEN: nat := 16
  const JUELS_LEN: nat := 8
  const HEADER_LEN: nat := 37
  const REPORT_LEN: nat := 61

  datatype Observation = Observation(timestamp: nat, value: int, juels: int, observer: byte)

  function TimestampOf(o: Observation): int { o.timestamp }
  function ValueOf(o: Observation): int { o.value }
  function JuelsOf(o: Observation): int { o.juels }

  /** What the program reads out of a report. */
  datatype Unpacked = Unpacked(median: int, observerCount: byte, observers: seq<byte>, timestamp: nat,
                               juelsPerLamport: nat)

  function Layout(timestamp: nat, count: byte, observers: seq<byte>, median: int, juels: int): (r: seq<byte>)
    requires |observers| == OBSERVERS_LEN && FitsSigned(median, MEDIAN_LEN) && FitsSigned(juels, JUELS_LEN)
    ensures |r| == REPORT_LEN
  {
    ToBE(timestamp, TIMESTAMP_LEN) + [count] + observers + ToSignedBE(median, MEDIAN_LEN) + ToSignedBE(juels, JUELS_LEN)
  }

  /** `Report::unpack`. */
  function Unpack(raw: seq<byte>): Result<Unpacked> {
    if |raw| != REPORT_LEN then Err(InvalidInput)
    else Ok(Unpacked(FromSignedBE(raw[37..53]), raw[4], raw[5..37][..MAX_ORACLES], FromBE(raw[0..4]),
                     FromBE(raw[53..61])))
  }

  /** `MedianFromReport`. */
  function MedianFromReport(raw: seq<byte>): Result<int> {
    if |raw| != REPORT_LEN then Err(InvalidInput) else Ok(FromSignedBE(raw[HEADER_LEN..HEADER_LEN + MEDIAN_LEN]))
  }

  /** `ObserversCountFromReport`. */
  function ObserversCountFromReport(raw: seq<byte>): Result<byte> {
    if |raw| != REPORT_LEN then Err(InvalidInput) else Ok(raw[TIMESTAMP_LEN..TIMESTAMP_LEN + 1][0])
  }

  /** The node's accessors agree with the program on every input. */
  lemma AccessorsAgree(raw: seq<byte>)
    ensures Unpack(raw).Ok? ==> MedianFromReport(raw) == Ok(Unpack(raw).value.median)
                                && ObserversCountFromReport(raw) == Ok(Unpack(raw).value.observerCount)
    ensures Unpack(raw).Err? ==> MedianFromReport(raw).Err? && ObserversCountFromReport(raw).Err?
  {}

  /** Unpacking recovers what was laid out. A negative price, which the node signs
      as two's complement, is read back as a large unsigned one. */
  lemma UnpackLayout(timestamp: nat, count: byte, observers: seq<byte>, median: int, juels: int)
    requires timestamp <= U32_MAX && |observers| == OBSERVERS_LEN
    requires FitsSigned(median, MEDIAN_LEN) && FitsSigned(juels, JUELS_LEN)
    ensures Unpack(Layout(timestamp, count, observers, median, juels))
            == Ok(Unpacked(median, count, observers[..MAX_ORACLES], timestamp,
                           if juels < 0 then juels + TWO_64 else juels))
  {
    var raw := Layout(timestamp, count, observers, median, juels);
    PowValues();
    assert raw[0..4] == ToBE(timestamp, 4);
    BigEndianRoundTrip(timestamp, 4);
    assert raw[5..37] == observers;
    assert raw[37..53] == ToSignedBE(median, 16);
    SignedRoundTrip(median, 16);
    assert raw[53..61] == ToSignedBE(juels, 8);
    BigEndianRoundTrip(if juels < 0 then juels + Pow256(8) else juels, 8);
  }

  /** A price of -1 is read back as the largest price there is. */
  lemma NegativePriceReadBack()
    ensures FitsSigned(0, MEDIAN_LEN) && FitsSigned(-1, JUELS_LEN)
    ensures Unpack(Layout(0, 1, Repeat(0, OBSERVERS_LEN), 0, -1))
            == Ok(Unpacked(0, 1, Repeat(0, OBSERVERS_LEN)[..MAX_ORACLES], 0, U64_MAX))
  {
    PowValues();
    UnpackLayout(0, 1, Repeat(0, OBSERVERS_LEN), 0, -1);
  }

  /** The observer indices in the order `observations` lists them, zero-padded. */
  function ObserverBytes(observations: seq<Observation>): (r: seq<byte>)
    requires |observations| <= OBSERVERS_LEN
    ensures |r| == OBSERVERS_LEN
  {
    seq(OBSERVERS_LEN, i requires 0 <= i < OBSERVERS_LEN => if i < |observations| then observations[i].observer else 0)
  }

  /** Observers in the order of `observations`, and zeros after them. */
  ghost predicate Observers(observations: seq<Observation>, observers: seq<byte>) {
    forall i :: 0 <= i < |observers| ==> observers[i] == if i < |observations| then observations[i].observer else 0
  }

  /** A report of `observations`: each field is the middle value of its own order, and
      the observers are listed in some order that is ascending by value. */
  ghost predicate ReportsOn(observations: seq<Observation>, byValue: seq<Observation>, timestamp: nat, juels: int,
                            median: int) {
    var (n, middle) := (|observations|, |observations| / 2);
    && HasRank(Keys(observations, TimestampOf), middle, timestamp)
    && HasRank(Keys(observations, JuelsOf), middle, juels)
    && HasRank(Keys(observations, ValueOf), middle, median)
    && multiset(byValue) == multiset(observations) && AscendingBy(byValue, ValueOf)
    && |byValue| == n
  }

  /** `BuildReport`. */
  method BuildReport(observations: seq<Observation>)
    returns (r: Result<seq<byte>>, ghost byValue: seq<Observation>, ghost timestamp: nat, ghost juels: int,
             ghost median: int)
    ensures observations == [] ==> r == Err(InvalidInput)
    ensures |observations| > OBSERVERS_LEN ==> r == Err(Aborted)
    ensures 0 < |observations| <= OBSERVERS_LEN ==>
              && ReportsOn(observations, byValue, timestamp, juels, median)
              && (r.Ok? <==> FitsSigned(median, MEDIAN_LEN) && FitsSigned(juels, JUELS_LEN))
              && (r.Ok? ==> r.value == Layout(timestamp, |observations|, ObserverBytes(byValue), median, juels))
              && (r.Ok? ==> r.value[4] == |observations| && Observers(byValue, r.value[5..37]))
  {
    byValue, timestamp, juels, median := [], 0, 0, 0;
    var n := |observations|;
    if n == 0 {
      return Err(InvalidInput), byValue, timestamp, juels, median;
    }
    var oo := new Observation[n](i requires 0 <= i < n => observations[i]);
    assert oo[..] == observations;

    var middle := MiddleBy(oo, TimestampOf, observations);
    var time := middle.timestamp;
    middle := MiddleBy(oo, JuelsOf, observations);
    var juelsPerFeeCoin := middle.juels;
    middle := MiddleBy(oo, ValueOf, observations);
    var value := middle.value;

    if n > OBSERVERS_LEN {
      return Err(Aborted), byValue, timestamp, juels, median;
    }
    var observers := FillObservers(oo[..]);
    byValue, timestamp, juels, median := oo[..], time, juelsPerFeeCoin, value;
    r := Serialize(time, n, observers, value, juelsPerFeeCoin);
  }

  /** Sort in place by one field and take the middle observation. */
  method MiddleBy(oo: array<Observation>, key: Observation -> int, ghost observations: seq<Observation>)
    returns (middle: Observation)
    requires observations != [] && multiset(oo[..]) == multiset(observations)
    modifies oo
    ensures multiset(oo[..]) == multiset(observations) && AscendingBy(oo[..], key)
    ensures HasRank(Keys(observations, key), |observations| / 2, key(middle))
  {
    SameSize(oo[..], observations);
    SortSlice(oo, key);
    SortIndependent(observations, oo[..], key, |observations| / 2);
    middle := oo[oo.Length / 2];
  }

  /** The report encoding, whose two signed fields may not fit. */
  method Serialize(timestamp: nat, count: byte, observers: seq<byte>, median: int, juels: int)
    returns (r: Result<seq<byte>>)
    requires |observers| == OBSERVERS_LEN
    ensures r.Ok? <==> FitsSigned(median, MEDIAN_LEN) && FitsSigned(juels, JUELS_LEN)
    ensures r.Ok? ==> r.value == Layout(timestamp, count, observers, median, juels)
                      && r.value[4] == count && r.value[5..37] == observers
  {
    var report := ToBE(timestamp, TIMESTAMP_LEN);
    report := report + [count];
    report := report + observers;
    if !FitsSigned(median, MEDIAN_LEN) {
      return Err(InvalidInput);
    }
    report := report + ToSignedBE(median, MEDIAN_LEN);
    if !FitsSigned(juels, JUELS_LEN) {
      return Err(InvalidInput);
    }
    report := report + ToSignedBE(juels, JUELS_LEN);
    return Ok(report);
  }

  method FillObservers(oo: seq<Observation>) returns (observers: seq<byte>)
    requires |oo| <= OBSERVERS_LEN
    ensures observers == ObserverBytes(oo) && |observers| == 32 && Observers(oo, observers)
  {
    observers := Repeat(0, OBSERVERS_LEN);
    for i := 0 to |oo|
      invariant |observers| == OBSERVERS_LEN
      invariant forall j :: 0 <= j < OBSERVERS_LEN ==> observers[j] == if j < i then oo[j].observer else 0
    {
      observers := observers[i := oo[i].observer];
    }
  }

  ghost predicate BetweenHonest(observations: seq<Observation>, dishonest: set<nat>, key: Observation -> int, v: int) {
    exists i, j :: 0 <= i < |observations| && 0 <= j < |observations| && i !in dishonest && j !in dishonest
                   && key(observations[i]) <= v <= key(observations[j])
  }

  /** With fewer than half of the observations dishonest, every reported value
      lies between two values that honest observers sent. */
  lemma HonestReport(observations: seq<Observation>, byValue: seq<Observation>, timestamp: nat, juels: int, median: int,
                     dishonest: set<nat>)
    requires ReportsOn(observations, byValue, timestamp, juels, median)
    requires 2 * |dishonest| < |observations|
    ensures BetweenHonest(observations, dishonest, TimestampOf, timestamp)
    ensures BetweenHonest(observations, dishonest, JuelsOf, juels)
    ensures BetweenHonest(observations, dishonest, ValueOf, median)
  {
    HonestMiddle(observations, dishonest, TimestampOf, timestamp);
    HonestMiddle(observations, dishonest, JuelsOf, juels);
    HonestMiddle(observations, dishonest, ValueOf, median);
  }

  lemma HonestMiddle(observations: seq<Observation>, dishonest: set<nat>, key: Observation -> int, v: int)
    requires HasRank(Keys(observations, key), |observations| / 2, v)
    requires 2 * |dishonest| < |observations|
    ensures BetweenHonest(observations, dishonest, key, v)
  {
    MedianBetweenHonest(Keys(observations, key), dishonest, v);
  }

  /** Two reports on the same observations, in any order, carry the same values. */
  lemma ReportOrderIndependent(a: seq<Observation>, aByValue: seq<Observation>, at: nat, aj: int, am: int,
                               b: seq<Observation>, bByValue: seq<Observation>, bt: nat, bj: int, bm: int)
    requires multiset(a) == multiset(b)
    requires ReportsOn(a, aByValue, at, aj, am) && ReportsOn(b, bByValue, bt, bj, bm)
    ensures at == bt && aj == bj && am == bm
  {
    SameSize(a, b);
    SameMiddle(a, b, TimestampOf, at, bt);
    SameMiddle(a, b, JuelsOf, aj, bj);
    SameMiddle(a, b, ValueOf, am, bm);
  }

  lemma SameMiddle(a: seq<Observation>, b: seq<Observation>, key: Observation -> int, v: int, w: int)
    requires multiset(a) == multiset(b)
    requires HasRank(Keys(a, key), |a| / 2, v) && HasRank(Keys(b, key), |b| / 2, w)
    ensures v == w
  {
    SameSize(a, b);
    KeysPermutation(a, b, key);
    AtMostPermutation(Keys(a, key), Keys(b, key), v);
    AtMostPermutation(Keys(a, key), Keys(b, key), v - 1);
    RankUnique(Keys(b, key), |b| / 2, v, w);
  }

  /** What the program reads back from a report of these values. */
  ghost predicate ReadsBack(observations: seq<Observation>, r: Result<Unpacked>, byValue: seq<Observation>,
                            timestamp: nat, juels: int, median: int)
    requires |observations| <= OBSERVERS_LEN
  {
    && ReportsOn(observations, byValue, timestamp, juels, median)
    && (r.Ok? <==> FitsSigned(median, MEDIAN_LEN) && FitsSigned(juels, JUELS_LEN))
    && (r.Ok? ==>
          && |r.value.observers| == 19 && Observers(byValue, r.value.observers)
          && r.value == Unpacked(median, |observations|, r.value.observers, timestamp,
                                 if juels < 0 then juels + TWO_64 else juels))
  }

  /** End to end: for 1 to 32 observations whose median and price fit, the program reads back the
      node's report; nothing else is ever reported. */
  method BuildAndUnpack(observations: seq<Observation>) returns (r: Result<Unpacked>)
    requires forall i :: 0 <= i < |observations| ==> observations[i].timestamp <= U32_MAX
    ensures |observations| == 0 || |observations| > OBSERVERS_LEN ==> r.Err?
    ensures 0 < |observations| <= OBSERVERS_LEN ==>
              exists byValue, timestamp, juels, median :: ReadsBack(observations, r, byValue, timestamp, juels, median)
  {
    ghost var byValue, timestamp, juels, median;
    var report;
    report, byValue, timestamp, juels, median := BuildReport(observations);
    if report.Err? {
      r := Err(report.error);
    } else {
      RankIsAnInput(Keys(observations, TimestampOf), |observations| / 2, timestamp);
      UnpackLayout(timestamp, |observations|, ObserverBytes(byValue), median, juels);
      r := Unpack(report.value);
    }
    assert 0 < |observations| <= OBSERVERS_LEN ==> ReadsBack(observations, r, byValue, timestamp, juels, median);
  }

  lemma {:induction false} RankIsAnInput(s: seq<int>, k: nat, v: int)
    requires HasRank(s, k, v)
    ensures exists i :: 0 <= i < |s| && s[i] == v
  {
    if forall i :: 0 <= i < |s| ==> s[i] != v {
      NoJump(s, v);
    }
  }

  lemma {:induction false} NoJump(s: seq<int>, v: int)
    requires forall i :: 0 <= i < |s| ==> s[i] != v
    ensures AtMost(s, v) == AtMost(s, v - 1)
  {
    if s != [] {
      NoJump(s[..|s| - 1], v);
    }
  }
}

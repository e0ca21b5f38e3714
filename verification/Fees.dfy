/** Fee bumping: the price of each retry, and the retry loop's signature list. */
module Fees {
  import opened Bytes

  const MAX_RETRY_MS: nat := 250

  function Pow2(n: nat): (r: nat)
    ensures r >= 1
  {
    if n == 0 then 1 else 2 * Pow2(n - 1)
  }

  /** The price after `count` doublings, over unbounded integers; a zero base starts from one. */
  function Doubled(base: nat, count: nat): nat {
    if base > 0 then base * Pow2(count) else if count == 0 then 0 else Pow2(count - 1)
  }

  function Clamp(amount: nat, min: nat, max: nat): nat {
    if amount < min then min else if amount > max then max else amount
  }

  /** The exact price: it starts at the base, a zero base becomes one, and everything else doubles. */
  lemma DoubledStep(base: nat, count: nat)
    requires base > 0 || count > 0
    ensures Doubled(base, 0) == base && Doubled(0, 1) == 1
    ensures Doubled(base, count + 1) == 2 * Doubled(base, count)
    ensures Doubled(base, count) > 0
  {
    if base > 0 {
      assert base * (2 * Pow2(count)) == 2 * (base * Pow2(count));
      assert base * Pow2(count) >= base;
    }
  }

  lemma {:induction false} DoubledMonotone(base: nat, c: nat, d: nat)
    requires c <= d
    ensures Doubled(base, c) <= Doubled(base, d)
    decreases d - c
  {
    if c < d {
      if base > 0 || c > 0 {
        DoubledStep(base, c);
      }
      DoubledMonotone(base, c + 1, d);
    }
  }

  /** `CalculateFee`, with 64-bit wrap-around. It is the clamp of the exact price unless
      the price overflows while the bounds are crossed, when it returns `min` for `max`. */
  method CalculateFee(base: nat, max: nat, min: nat, count: nat) returns (fee: nat)
    requires base <= U64_MAX && max <= U64_MAX && min <= U64_MAX
    ensures fee == Clamp(Doubled(base, count), min, max) <==> min <= max || Doubled(base, count) <= U64_MAX
    ensures Doubled(base, count) > U64_MAX && min > max ==> fee == min
  {
    var amount := base;
    var i := 0;
    while i < count
      invariant 0 <= i <= count
      invariant amount == Doubled(base, i) <= U64_MAX
    {
      if base == 0 && i == 0 {
        amount := 1;
      } else {
        DoubledStep(base, i);
        var next := (amount + amount) % TWO_64;
        if next <= amount {
          DoubledMonotone(base, i + 1, count);
          amount := max;
          break;
        }
        amount := next;
      }
      i := i + 1;
    }
    if amount < min {
      return min;
    }
    if amount > max {
      return max;
    }
    return amount;
  }

  /** Bumping never lowers the price. */
  lemma BumpingNeverLowers(base: nat, max: nat, min: nat, c: nat, d: nat)
    requires min <= max && c <= d
    ensures Clamp(Doubled(base, c), min, max) <= Clamp(Doubled(base, d), min, max)
  {
    DoubledMonotone(base, c, d);
  }

  // ----- The signature list of one transaction

  datatype Signature = Unset | Signature(id: nat)

  class SignatureList {
    var sigs: seq<Signature>

    constructor ()
      ensures sigs == []
    {
      sigs := [];
    }

    method Allocate() returns (index: nat)
      modifies this
      ensures sigs == old(sigs) + [Unset] && index == |old(sigs)|
    {
      sigs := sigs + [Unset];
      return |sigs| - 1;
    }

    /** Fails when the index was never allocated or its signature is already there. */
    method Set(index: nat, sig: Signature) returns (ok: bool)
      modifies this
      ensures ok <==> index < |old(sigs)| && old(sigs)[index] == Unset
      ensures sigs == if ok then old(sigs)[index := sig] else old(sigs)
    {
      if index >= |sigs| {
        return false;
      }
      if sigs[index] != Unset {
        return false;
      }
      sigs := sigs[index := sig];
      return true;
    }
  }

  /** What happens to the retry goroutine, in some order: a tick, which may be due for a bump
      whose transaction may fail to build; or one of the senders it started coming back. */
  datatype Event =
    | Tick(bumpDue: bool, built: bool)
    | Returned(count: nat, sig: Signature, sent: bool, stored: bool)

  // ----- What a run of events should leave

  /** No bump has failed to build yet. */
  predicate Live(events: seq<Event>) {
    Tick(true, false) !in events
  }

  /** The bumps built so far. */
  function Built(events: seq<Event>): nat {
    if events == [] then 0 else
    var (front, last) := (events[..|events| - 1], events[|events| - 1]);
    Built(front) + if Live(front) && last == Tick(true, true) then 1 else 0
  }

  /** The ticks that were followed by another wait. */
  function Waits(events: seq<Event>): nat {
    if events == [] then 0 else
    var (front, last) := (events[..|events| - 1], events[|events| - 1]);
    Waits(front) + if Live(events) && last.Tick? then 1 else 0
  }

  /** The sender of bump `c` has come back. */
  predicate Back(events: seq<Event>, c: nat) {
    events != [] &&
    var (front, last) := (events[..|events| - 1], events[|events| - 1]);
    Back(front, c) || (last.Returned? && last.count == c && 0 < c <= Built(front))
  }

  /** The signature the list should hold for bump `c`: the one its sender came back with, if it was sent and stored. */
  function Saved(events: seq<Event>, c: nat): Signature {
    if events == [] then Unset else
    var (front, last) := (events[..|events| - 1], events[|events| - 1]);
    if !Back(front, c) && Back(events, c) && last.sent && last.stored then last.sig else Saved(front, c)
  }

  lemma {:induction false} NotBackUnset(events: seq<Event>, c: nat)
    requires !Back(events, c)
    ensures Saved(events, c) == Unset
  {
    if events != [] {
      NotBackUnset(events[..|events| - 1], c);
    }
  }

  /** The senders still under way: one for each bump built, until it comes back. */
  ghost predicate Sending(sending: set<nat>, events: seq<Event>) {
    forall c :: c in sending <==> 0 < c <= Built(events) && !Back(events, c)
  }

  /** One entry per price, and in each the signature its sender saved. */
  ghost predicate Lists(sigs: seq<Signature>, first: Signature, events: seq<Event>) {
    && |sigs| == 1 + Built(events) && sigs[0] == first
    && forall c :: 0 < c < |sigs| ==> sigs[c] == Saved(events, c)
  }

  lemma {:induction false} NoneBackBefore(events: seq<Event>, c: nat)
    requires c > Built(events)
    ensures !Back(events, c)
  {
    if events != [] {
      NoneBackBefore(events[..|events| - 1], c);
    }
  }

  /** A sender coming back. */
  method SenderBack(list: SignatureList, sending: set<nat>, ghost first: Signature, ghost before: seq<Event>,
                    event: Event)
    returns (still: set<nat>, ok: bool)
    requires event.Returned? && Sending(sending, before) && Lists(list.sigs, first, before)
    modifies list
    ensures ok && Sending(still, before + [event]) && Lists(list.sigs, first, before + [event])
  {
    ghost var after := before + [event];
    assert after[..|before|] == before;
    ok, still := true, sending;
    if event.count in sending {
      still := sending - {event.count};
      if event.sent && event.stored {
        NotBackUnset(before, event.count);
        ok := list.Set(event.count, event.sig);
      }
    }
  }

  /** Each price is the bumped one, when the bounds are in order. */
  ghost predicate Priced(prices: seq<nat>, base: nat, max: nat, min: nat) {
    min <= max ==> forall c :: 0 <= c < |prices| ==> prices[c] == Clamp(Doubled(base, c), min, max)
  }

  /** A bump that was built: a new entry, its price, and a sender for it. */
  method StartSender(list: SignatureList, sending: set<nat>, prices: seq<nat>, bumpCount: nat,
                     base: nat, max: nat, min: nat, ghost first: Signature, ghost before: seq<Event>)
    returns (now: set<nat>, longer: seq<nat>, ok: bool)
    requires base <= U64_MAX && min <= U64_MAX && max <= U64_MAX
    requires Sending(sending, before) && Lists(list.sigs, first, before)
    requires Live(before) && bumpCount == Built(before) + 1
    requires |prices| == |list.sigs| && Priced(prices, base, max, min)
    modifies list
    ensures ok && Sending(now, before + [Tick(true, true)]) && Lists(list.sigs, first, before + [Tick(true, true)])
    ensures |longer| == |list.sigs| && Priced(longer, base, max, min)
  {
    ghost var after := before + [Tick(true, true)];
    assert after[..|before|] == before;
    NoneBackBefore(before, bumpCount);
    NotBackUnset(before, bumpCount);
    var index := list.Allocate();
    ok, now, longer := index == bumpCount, sending, prices;
    if ok {
      var price := CalculateFee(base, max, min, bumpCount);
      now, longer := sending + {bumpCount}, prices + [price];
    }
  }

  /** A tick that builds nothing leaves the senders and the list as they are. */
  lemma TickedLists(first: Signature, before: seq<Event>, event: Event)
    requires event.Tick?
    ensures Built(before + [event]) == Built(before) + if Live(before) && event == Tick(true, true) then 1 else 0
    ensures Live(before + [event]) <==> Live(before) && event != Tick(true, false)
    ensures Waits(before + [event]) == Waits(before) + if Live(before + [event]) then 1 else 0
    ensures !(Live(before) && event == Tick(true, true)) ==>
              && (forall sigs :: Lists(sigs, first, before) ==> Lists(sigs, first, before + [event]))
              && (forall sending :: Sending(sending, before) ==> Sending(sending, before + [event]))
  {
    assert (before + [event])[..|before|] == before;
  }

  /** Twice the wait, capped. */
  method Doubling(deltaT: nat, ghost waits: nat) returns (next: nat)
    requires deltaT == Backoff(waits)
    ensures next == Backoff(waits + 1)
  {
    next := deltaT * 2;
    if next > MAX_RETRY_MS {
      next := MAX_RETRY_MS;
    }
  }

  /** The longest wait is a constant; below it, waits are powers of two. */
  function Backoff(waits: nat): nat {
    if Pow2(waits) > MAX_RETRY_MS then MAX_RETRY_MS else Pow2(waits)
  }

  lemma PricesRise(prices: seq<nat>, base: nat, max: nat, min: nat)
    requires Priced(prices, base, max, min)
    ensures min <= max ==> forall c, d :: 0 <= c <= d < |prices| ==> prices[c] <= prices[d]
  {
    forall c, d | min <= max && 0 <= c <= d < |prices|
      ensures prices[c] <= prices[d]
    {
      BumpingNeverLowers(base, max, min, c, d);
    }
  }

  /** The retry loop over every order of events: the list always has one entry per price, with the signature its sender
      came back with; each price is the bumped one; the wait doubles up to a maximum; and neither
      invariant-violation branch is reached. A bump that cannot be built ends the ticks; senders still come back. */
  method RetryLoop(base: nat, max: nat, min: nat, first: Signature, events: seq<Event>)
    returns (violations: int, bumpCount: nat, buildFailed: bool, deltaT: nat, prices: seq<nat>, list: SignatureList)
    requires base <= U64_MAX && min <= U64_MAX && max <= U64_MAX
    ensures violations == 0
    ensures deltaT == (if Pow2(Waits(events)) > 250 then 250 else Pow2(Waits(events)))
    ensures buildFailed <==> Tick(true, false) in events
    ensures bumpCount == if buildFailed then Built(events) + 1 else Built(events)
    ensures |prices| == |list.sigs| && Lists(list.sigs, first, events)
    ensures Priced(prices, base, max, min)
    ensures min <= max ==> forall c, d :: 0 <= c <= d < |prices| ==> prices[c] <= prices[d]
  {
    list := new SignatureList();
    var index := list.Allocate();
    var ok := list.Set(0, first);
    violations, bumpCount, buildFailed, deltaT := 0, 0, false, 1;
    var price := CalculateFee(base, max, min, 0);
    prices := [price];
    var sending: set<nat> := {};
    var ticking := true;
    ghost var done: seq<Event> := [];
    var k := 0;
    while k < |events|
      invariant 0 <= k <= |events| && done == events[..k]
      invariant fresh(list) && Sending(sending, done) && Lists(list.sigs, first, done)
      invariant violations == 0 && deltaT == Backoff(Waits(done))
      invariant (ticking <==> !buildFailed) && (buildFailed <==> !Live(done))
      invariant bumpCount == if buildFailed then Built(done) + 1 else Built(done)
      invariant |prices| == |list.sigs|
      invariant Priced(prices, base, max, min)
    {
      if events[k].Returned? {
        sending, ok := SenderBack(list, sending, first, done, events[k]);
        if !ok {
          violations := violations + 1;
        }
      } else {
        if ticking && events[k].bumpDue {
          bumpCount := bumpCount + 1;
          if !events[k].built {
            buildFailed, ticking := true, false;
          } else {
            sending, prices, ok := StartSender(list, sending, prices, bumpCount, base, max, min, first, done);
            if !ok {
              violations, ticking := violations + 1, false;
            }
          }
        }
        TickedLists(first, done, events[k]);
        if ticking {
          deltaT := Doubling(deltaT, Waits(done));
        }
      }
      done, k := done + [events[k]], k + 1;
    }
    assert done == events;
    PricesRise(prices, base, max, min);
  }

  /** Crossed bounds: 2^63 doubled once overflows, and the fee is the minimum, not the clamped price. */
  method CrossedBoundsFee() returns (fee: nat)
    ensures fee == 2 && Clamp(Doubled(0x8000_0000_0000_0000, 1), 2, 1) == 1
  {
    assert Doubled(0x8000_0000_0000_0000, 1) == TWO_64 by {
      assert Pow2(1) == 2;
    }
    fee := CalculateFee(0x8000_0000_0000_0000, 1, 2, 1);
  }
}

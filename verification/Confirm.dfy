/** One batch of the confirmation loop: statuses are sorted best first, then each
    signature's transaction is settled. */
module Confirm {
  import opened Collections
  import opened PendingTx

  datatype Commitment = Processed | Confirmed | Finalized | Unknown

  /** A signature status from the RPC: none, or a commitment and whether the transaction failed. */
  datatype Status = Missing | Status(commitment: Commitment, failed: bool)

  const NOT_FOUND: nat := 0
  const PROCESSED: nat := 1
  const CONFIRMED_REVERT: nat := 2
  const CONFIRMED_SUCCESS: nat := 3

  /** `convertStatus`. */
  function ConvertStatus(s: Status): nat {
    match s
    case Missing => NOT_FOUND
    case Status(Processed, _) => PROCESSED
    case Status(Confirmed, failed) => if failed then CONFIRMED_REVERT else CONFIRMED_SUCCESS
    case Status(Finalized, failed) => if failed then CONFIRMED_REVERT else CONFIRMED_SUCCESS
    case Status(Unknown, _) => NOT_FOUND
  }

  /** The transaction is in a confirmed block and did not fail. */
  predicate Succeeded(s: Status) {
    s.Status? && !s.failed && (s.commitment == Confirmed || s.commitment == Finalized)
  }

  // ----- Sorting signatures with their results

  function Pairs(sigs: seq<Sig>, res: seq<Status>): (r: seq<(Sig, Status)>)
    requires |sigs| == |res|
    ensures |r| == |sigs|
  {
    seq(|sigs|, i requires 0 <= i < |sigs| => (sigs[i], res[i]))
  }

  ghost predicate BestFirst(res: seq<Status>) {
    forall i, j :: 0 <= i < j < |res| ==> ConvertStatus(res[i]) >= ConvertStatus(res[j])
  }

  function Swapped<T>(s: seq<T>, i: nat, j: nat): seq<T>
    requires i < |s| && j < |s|
  {
    s[i := s[j]][j := s[i]]
  }

  lemma SwapPermutes<T>(s: seq<T>, i: nat, j: nat)
    requires i < |s| && j < |s|
    ensures multiset(Swapped(s, i, j)) == multiset(s)
  {}

  /** `statuses.Swap`. */
  method Swap(sigs: array<Sig>, res: array<Status>, i: nat, j: nat)
    requires sigs.Length == res.Length && i < sigs.Length && j < sigs.Length
    modifies sigs, res
    ensures res[..] == Swapped(old(res[..]), i, j)
    ensures Pairs(sigs[..], res[..]) == Swapped(old(Pairs(sigs[..], res[..])), i, j)
  {
    sigs[i], sigs[j] := sigs[j], sigs[i];
    res[i], res[j] := res[j], res[i];
    assert res[..] == Swapped(old(res[..]), i, j);
    assert Pairs(sigs[..], res[..]) == Swapped(old(Pairs(sigs[..], res[..])), i, j);
  }

  /** `SortSignaturesAndResults`: an unstable in-place sort that moves pairs together. */
  method SortSignaturesAndResults(sigs: array<Sig>, res: array<Status>) returns (ok: bool)
    modifies sigs, res
    ensures ok <==> sigs.Length == res.Length
    ensures !ok ==> sigs[..] == old(sigs[..]) && res[..] == old(res[..])
    ensures ok ==> BestFirst(res[..])
    ensures ok ==> multiset(Pairs(sigs[..], res[..])) == multiset(Pairs(old(sigs[..]), old(res[..])))
  {
    if sigs.Length != res.Length {
      return false;
    }
    for i := 0 to res.Length
      invariant multiset(Pairs(sigs[..], res[..])) == multiset(Pairs(old(sigs[..]), old(res[..])))
      invariant forall j, k :: 0 <= j < i && j < k < res.Length ==> ConvertStatus(res[j]) >= ConvertStatus(res[k])
    {
      var best := i;
      for j := i + 1 to res.Length
        invariant i <= best < res.Length
        invariant forall k :: i <= k < j ==> ConvertStatus(res[best]) >= ConvertStatus(res[k])
      {
        if ConvertStatus(res[j]) > ConvertStatus(res[best]) {
          best := j;
        }
      }
      SwapPermutes(Pairs(sigs[..], res[..]), i, best);
      ghost var before := res[..];
      Swap(sigs, res, i, best);
      assert forall k :: 0 <= k < res.Length ==> res[k] == Swapped(before, i, best)[k];
    }
    return true;
  }

  // ----- Settling

  datatype Outcome = Outcome(id: Id, reason: Reason)

  /** The pending table and the outcomes counted so far. */
  datatype Table = Table(maps: Maps, outcomes: seq<Outcome>)

  /** `OnSuccess` and `OnError`: remove, and count the outcome if something was removed. */
  function Settle(t: Table, sig: Sig, reason: Reason): Table {
    var id := ReturnedId(t.maps, sig);
    Table(Removed(t.maps, sig), if id != NIL then t.outcomes + [Outcome(id, reason)] else t.outcomes)
  }

  /** A signature with its status, and what `Expired` would say of it while it is pending. */
  datatype Entry = Entry(sig: Sig, status: Status, expired: bool)

  /** The body of the loop. */
  function ProcessOne(t: Table, e: Entry): Table {
    match e.status
    case Missing => if e.expired && e.sig in t.maps.sigToId then Settle(t, e.sig, Drop) else t
    case Status(commitment, failed) =>
      if failed then Settle(t, e.sig, Revert)
      else match commitment
        case Processed => if e.expired && e.sig in t.maps.sigToId then Settle(t, e.sig, Drop) else t
        case Confirmed => Settle(t, e.sig, Success)
        case Finalized => Settle(t, e.sig, Success)
        case Unknown => t
  }

  function ProcessAll(t: Table, batch: seq<Entry>): Table {
    if batch == [] then t else ProcessOne(ProcessAll(t, batch[..|batch| - 1]), batch[|batch| - 1])
  }

  /** The outcomes of one transaction. */
  function OutcomesOf(outcomes: seq<Outcome>, id: Id): seq<Reason> {
    if outcomes == [] then [] else
    var n := |outcomes| - 1;
    OutcomesOf(outcomes[..n], id) + if outcomes[n].id == id then [outcomes[n].reason] else []
  }

  /** Where a transaction stands: still pending with its signatures, or settled with these outcomes. */
  ghost predicate Pending(t: Table, id: Id, sigs: seq<Sig>) {
    && id in t.maps.idToSigs && t.maps.idToSigs[id] == sigs
    && OutcomesOf(t.outcomes, id) == []
  }

  ghost predicate SettledAs(t: Table, id: Id, reason: Reason) {
    id !in t.maps.idToSigs && OutcomesOf(t.outcomes, id) == [reason]
  }

  lemma OutcomesSnoc(outcomes: seq<Outcome>, o: Outcome, id: Id)
    ensures OutcomesOf(outcomes + [o], id) == OutcomesOf(outcomes, id) + if o.id == id then [o.reason] else []
  {
    assert (outcomes + [o])[..|outcomes|] == outcomes;
  }

  /** Settling one signature settles its own transaction and no other. */
  lemma SettleOne(t: Table, sig: Sig, reason: Reason, id: Id)
    requires Consistent(t.maps) && id != NIL
    ensures var t' := Settle(t, sig, reason);
            && Consistent(t'.maps)
            && (Points(t.maps.sigToId, sig, id) ==>
                  id !in t'.maps.idToSigs && OutcomesOf(t'.outcomes, id) == OutcomesOf(t.outcomes, id) + [reason])
            && (!Points(t.maps.sigToId, sig, id) ==>
                  && OutcomesOf(t'.outcomes, id) == OutcomesOf(t.outcomes, id)
                  && (id in t'.maps.idToSigs <==> id in t.maps.idToSigs)
                  && (id in t.maps.idToSigs ==> t'.maps.idToSigs[id] == t.maps.idToSigs[id]))
  {
    RemovedConsistent(t.maps, sig);
    var returned := ReturnedId(t.maps, sig);
    OutcomesSnoc(t.outcomes, Outcome(returned, reason), id);
  }

  // ----- The first entry that settles decides

  /** What an entry settles a pending transaction as, if it does. */
  function ReasonFor(e: Entry): Option<Reason> {
    if Succeeded(e.status) then Some(Success)
    else if e.status.Status? && e.status.failed then Some(Revert)
    else if e.expired && (e.status.Missing? || e.status.commitment == Processed) then Some(Drop)
    else None
  }

  /** The reason of the first entry that settles a transaction with these signatures. */
  ghost function FirstReason(batch: seq<Entry>, sigs: seq<Sig>): Option<Reason> {
    if batch == [] then None else
    var (before, last) := (FirstReason(batch[..|batch| - 1], sigs), batch[|batch| - 1]);
    if before.Some? then before else if last.sig in sigs then ReasonFor(last) else None
  }

  /** Where a transaction stands after a batch: settled once, as this reason, or pending as before. */
  ghost predicate EndsAs(t: Table, id: Id, sigs: seq<Sig>, first: Option<Reason>) {
    match first
    case Some(reason) => SettledAs(t, id, reason)
    case None => Pending(t, id, sigs)
  }

  lemma ProcessOneByReason(t: Table, e: Entry)
    ensures ProcessOne(t, e) == match ReasonFor(e) case Some(reason) => Settle(t, e.sig, reason) case None => t
  {}

  /** One status of a pending transaction: it is a success once confirmed without error, reverted on any error, dropped
      when it expired unseen or merely processed, and otherwise still pending with all its signatures. */
  lemma OneStatusDecides(t: Table, e: Entry, id: Id, sigs: seq<Sig>)
    requires Consistent(t.maps) && Pending(t, id, sigs) && e.sig in sigs
    ensures var (t', s) := (ProcessOne(t, e), e.status);
            var (seen, failed) := (s != Missing, s != Missing && s.failed);
            var confirmed := seen && (s.commitment == Confirmed || s.commitment == Finalized);
            var expired := e.expired && !failed && (!seen || s.commitment == Processed);
            && (SettledAs(t', id, Success) <==> confirmed && !failed)
            && (SettledAs(t', id, Revert) <==> failed)
            && (SettledAs(t', id, Drop) <==> expired)
            && (Pending(t', id, sigs) <==> !failed && !confirmed && !expired)
  {
    ProcessOneByReason(t, e);
    assert Lists(t.maps.idToSigs, id, e.sig) <==> Points(t.maps.sigToId, e.sig, id);
    if ReasonFor(e).Some? {
      SettleOne(t, e.sig, ReasonFor(e).value, id);
      assert OutcomesOf(ProcessOne(t, e).outcomes, id) == [ReasonFor(e).value];
    }
    assert forall reason :: SettledAs(ProcessOne(t, e), id, reason) ==>
             |OutcomesOf(ProcessOne(t, e).outcomes, id)| == 1 && OutcomesOf(ProcessOne(t, e).outcomes, id)[0] == reason;
  }

  /** In any order, and so for any interleaving of batches: every pending transaction ends settled
      exactly once, as the first of its settling entries says, or stays pending. */
  lemma {:induction false} FirstReasonDecides(t: Table, batch: seq<Entry>, id: Id, sigs: seq<Sig>)
    requires Consistent(t.maps) && Pending(t, id, sigs)
    ensures var t' := ProcessAll(t, batch); Consistent(t'.maps) && EndsAs(t', id, sigs, FirstReason(batch, sigs))
  {
    if batch != [] {
      var (front, last) := (batch[..|batch| - 1], batch[|batch| - 1]);
      var before := ProcessAll(t, front);
      FirstReasonDecides(t, front, id, sigs);
      ProcessOneByReason(before, last);
      if ReasonFor(last).Some? {
        SettleOne(before, last.sig, ReasonFor(last).value, id);
        assert Lists(before.maps.idToSigs, id, last.sig) <==> Points(before.maps.sigToId, last.sig, id);
      }
    }
  }

  /** The entry settles a transaction with these signatures. */
  ghost predicate SettlesAs(e: Entry, sigs: seq<Sig>, reason: Reason) {
    e.sig in sigs && ReasonFor(e) == Some(reason)
  }

  ghost predicate HasEntry(batch: seq<Entry>, sigs: seq<Sig>, reason: Reason) {
    exists i :: 0 <= i < |batch| && SettlesAs(batch[i], sigs, reason)
  }

  lemma {:induction false} FirstReasonFound(batch: seq<Entry>, sigs: seq<Sig>)
    ensures FirstReason(batch, sigs).Some? ==> HasEntry(batch, sigs, FirstReason(batch, sigs).value)
    ensures FirstReason(batch, sigs).None? ==> forall reason :: !HasEntry(batch, sigs, reason)
  {
    if batch != [] {
      var n := |batch| - 1;
      FirstReasonFound(batch[..n], sigs);
      if FirstReason(batch[..n], sigs).Some? {
        var i :| 0 <= i < n && SettlesAs(batch[..n][i], sigs, FirstReason(batch, sigs).value);
        assert batch[i] == batch[..n][i];
      } else {
        forall i, reason | 0 <= i < n
          ensures !SettlesAs(batch[i], sigs, reason)
        {
          assert !HasEntry(batch[..n], sigs, reason);
          assert batch[..n][i] == batch[i];
        }
        if FirstReason(batch, sigs).Some? {
          assert SettlesAs(batch[n], sigs, FirstReason(batch, sigs).value);
        }
      }
    }
  }

  ghost predicate Ranked(batch: seq<Entry>) {
    forall i, j :: 0 <= i < j < |batch| ==> ConvertStatus(batch[i].status) >= ConvertStatus(batch[j].status)
  }

  lemma SuccessRanksFirst(e: Entry)
    ensures ReasonFor(e) == Some(Success) <==> ConvertStatus(e.status) == CONFIRMED_SUCCESS
    ensures ConvertStatus(e.status) <= CONFIRMED_SUCCESS
  {}

  /** Best status first, a transaction is settled as a success exactly when one of its signatures is. */
  lemma {:induction false} RankedFirst(batch: seq<Entry>, sigs: seq<Sig>)
    requires Ranked(batch)
    ensures FirstReason(batch, sigs) == Some(Success) <==> HasEntry(batch, sigs, Success)
  {
    FirstReasonFound(batch, sigs);
    if HasEntry(batch, sigs, Success) {
      var i :| 0 <= i < |batch| && SettlesAs(batch[i], sigs, Success);
      var n := |batch| - 1;
      var front := batch[..n];
      RankedFirst(front, sigs);
      FirstReasonFound(front, sigs);
      if i < n {
        assert SettlesAs(front[i], sigs, Success);
      } else if FirstReason(front, sigs).Some? {
        var k :| 0 <= k < n && SettlesAs(front[k], sigs, FirstReason(front, sigs).value);
        SuccessRanksFirst(batch[k]);
        SuccessRanksFirst(batch[n]);
      }
    }
  }

  /** If any signature of a pending transaction is confirmed without error, the transaction
      is counted exactly once, as a success, whatever its other signatures report. */
  lemma SuccessWins(t: Table, batch: seq<Entry>, id: Id, winner: nat)
    requires Consistent(t.maps) && id in t.maps.idToSigs && OutcomesOf(t.outcomes, id) == []
    requires Ranked(batch)
    requires winner < |batch| && batch[winner].sig in t.maps.idToSigs[id] && Succeeded(batch[winner].status)
    ensures Consistent(ProcessAll(t, batch).maps) && SettledAs(ProcessAll(t, batch), id, Success)
  {
    var sigs := t.maps.idToSigs[id];
    FirstReasonDecides(t, batch, id, sigs);
    assert SettlesAs(batch[winner], sigs, Success);
    RankedFirst(batch, sigs);
  }

  /** The transaction is in a confirmed block and failed. */
  predicate FailedForGood(s: Status) {
    s.Status? && s.failed && (s.commitment == Confirmed || s.commitment == Finalized)
  }

  predicate OnlyProcessed(s: Status) {
    s.Status? && s.commitment == Processed
  }

  /** Some entry of a transaction with these signatures has such a status, and settles it. */
  ghost predicate SettlesWith(batch: seq<Entry>, sigs: seq<Sig>, reason: Reason, which: Status -> bool) {
    exists i :: 0 <= i < |batch| && SettlesAs(batch[i], sigs, reason) && which(batch[i].status)
  }

  /** The entry that decides, with none before it that settles the transaction. */
  lemma {:induction false} DecidingEntry(batch: seq<Entry>, sigs: seq<Sig>) returns (i: nat)
    requires FirstReason(batch, sigs).Some?
    ensures i < |batch| && SettlesAs(batch[i], sigs, FirstReason(batch, sigs).value)
    ensures forall k :: 0 <= k < i && batch[k].sig in sigs ==> ReasonFor(batch[k]) == None
  {
    var n := |batch| - 1;
    if FirstReason(batch[..n], sigs).Some? {
      i := DecidingEntry(batch[..n], sigs);
    } else {
      i := n;
      FirstReasonFound(batch[..n], sigs);
      forall k | 0 <= k < n && batch[k].sig in sigs
        ensures ReasonFor(batch[k]) == None
      {
        if ReasonFor(batch[k]).Some? {
          assert !HasEntry(batch[..n], sigs, ReasonFor(batch[k]).value);
          assert SettlesAs(batch[..n][k], sigs, ReasonFor(batch[k]).value);
        }
      }
    }
  }

  /** The deciding entry has the best status of those that settle. */
  lemma BestDecides(batch: seq<Entry>, sigs: seq<Sig>, k: nat, reason: Reason) returns (i: nat)
    requires Ranked(batch) && k < |batch| && SettlesAs(batch[k], sigs, reason)
    ensures FirstReason(batch, sigs).Some?
    ensures i < |batch| && SettlesAs(batch[i], sigs, FirstReason(batch, sigs).value)
    ensures ConvertStatus(batch[i].status) >= ConvertStatus(batch[k].status)
  {
    FirstReasonFound(batch, sigs);
    assert HasEntry(batch, sigs, reason);
    i := DecidingEntry(batch, sigs);
    assert i <= k;
  }

  lemma RankedReason(batch: seq<Entry>, sigs: seq<Sig>)
    requires Ranked(batch) && !HasEntry(batch, sigs, Success)
    ensures SettlesWith(batch, sigs, Revert, FailedForGood) ==> FirstReason(batch, sigs) == Some(Revert)
    ensures !SettlesWith(batch, sigs, Revert, FailedForGood) ==>
              forall reason :: SettlesWith(batch, sigs, reason, OnlyProcessed) ==>
                FirstReason(batch, sigs).Some?
                && SettlesWith(batch, sigs, FirstReason(batch, sigs).value, OnlyProcessed)
  {
    if SettlesWith(batch, sigs, Revert, FailedForGood) {
      var k :| 0 <= k < |batch| && SettlesAs(batch[k], sigs, Revert) && FailedForGood(batch[k].status);
      var i := BestDecides(batch, sigs, k, Revert);
    } else {
      forall reason | SettlesWith(batch, sigs, reason, OnlyProcessed)
        ensures FirstReason(batch, sigs).Some?
        ensures SettlesWith(batch, sigs, FirstReason(batch, sigs).value, OnlyProcessed)
      {
        var k :| 0 <= k < |batch| && SettlesAs(batch[k], sigs, reason) && OnlyProcessed(batch[k].status);
        var i := BestDecides(batch, sigs, k, reason);
        assert OnlyProcessed(batch[i].status);
      }
    }
  }

  /** Best status first: without a success, a failure in a confirmed block decides, whatever has expired; without that
      either, the statuses of blocks merely processed decide before those of signatures that were not found. */
  lemma RankedDecides(t: Table, batch: seq<Entry>, id: Id)
    requires Consistent(t.maps) && id in t.maps.idToSigs && OutcomesOf(t.outcomes, id) == []
    requires Ranked(batch) && !HasEntry(batch, t.maps.idToSigs[id], Success)
    ensures var sigs := t.maps.idToSigs[id];
            if SettlesWith(batch, sigs, Revert, FailedForGood) then SettledAs(ProcessAll(t, batch), id, Revert)
            else forall reason :: SettlesWith(batch, sigs, reason, OnlyProcessed) ==>
                   exists decided :: SettlesWith(batch, sigs, decided, OnlyProcessed)
                                     && SettledAs(ProcessAll(t, batch), id, decided)
  {
    FirstReasonDecides(t, batch, id, t.maps.idToSigs[id]);
    RankedReason(batch, t.maps.idToSigs[id]);
  }

  // ----- Several batches at once

  /** `merged` takes every entry of every batch, each batch in its own order. */
  ghost predicate Interleaves(batches: seq<seq<Entry>>, merged: seq<Entry>)
    decreases |merged|
  {
    if merged == [] then forall k :: 0 <= k < |batches| ==> batches[k] == []
    else exists k :: 0 <= k < |batches| && TakesLast(batches, k, merged)
                     && Interleaves(WithoutLast(batches, k), merged[..|merged| - 1])
  }

  ghost predicate TakesLast(batches: seq<seq<Entry>>, k: nat, merged: seq<Entry>) {
    k < |batches| && batches[k] != [] && merged != [] && batches[k][|batches[k]| - 1] == merged[|merged| - 1]
  }

  ghost function WithoutLast(batches: seq<seq<Entry>>, k: nat): (r: seq<seq<Entry>>)
    requires k < |batches| && batches[k] != []
    ensures |r| == |batches|
  {
    batches[k := batches[k][..|batches[k]| - 1]]
  }

  /** Some batch's own first reason comes first, if any has one. */
  lemma {:induction false} MergedFirst(batches: seq<seq<Entry>>, merged: seq<Entry>, sigs: seq<Sig>)
    requires Interleaves(batches, merged)
    ensures var first := FirstReason(merged, sigs);
            if first.None? then forall k :: 0 <= k < |batches| ==> FirstReason(batches[k], sigs) == None
            else exists k :: 0 <= k < |batches| && FirstReason(batches[k], sigs) == first
    decreases |merged|
  {
    if merged != [] {
      var n := |merged| - 1;
      var k :| 0 <= k < |batches| && TakesLast(batches, k, merged) && Interleaves(WithoutLast(batches, k), merged[..n]);
      var rest := WithoutLast(batches, k);
      MergedFirst(rest, merged[..n], sigs);
      if FirstReason(merged[..n], sigs).Some? {
        var j :| 0 <= j < |rest| && FirstReason(rest[j], sigs) == FirstReason(merged[..n], sigs);
        assert FirstReason(batches[j], sigs) == FirstReason(merged, sigs);
      } else {
        assert FirstReason(rest[k], sigs) == None;
        assert FirstReason(batches[k], sigs) == FirstReason(merged, sigs);
        forall j | 0 <= j < |batches| && j != k
          ensures FirstReason(batches[j], sigs) == None
        {
          assert rest[j] == batches[j];
        }
      }
    }
  }

  ghost function Entries(batches: seq<seq<Entry>>): nat {
    if batches == [] then 0 else Entries(batches[..|batches| - 1]) + |batches[|batches| - 1]|
  }

  lemma {:induction false} EntriesWithoutLast(batches: seq<seq<Entry>>, k: nat)
    requires k < |batches| && batches[k] != []
    ensures Entries(WithoutLast(batches, k)) == Entries(batches) - 1
  {
    var n := |batches| - 1;
    if k < n {
      EntriesWithoutLast(batches[..n], k);
      assert WithoutLast(batches, k)[..n] == WithoutLast(batches[..n], k);
    } else {
      assert WithoutLast(batches, k)[..n] == batches[..n];
    }
  }

  /** Any batch may go first. */
  lemma {:induction false} GoesFirst(batches: seq<seq<Entry>>, k: nat, sigs: seq<Sig>) returns (merged: seq<Entry>)
    requires k < |batches|
    ensures Interleaves(batches, merged)
    ensures FirstReason(batches[k], sigs).Some? ==> FirstReason(merged, sigs) == FirstReason(batches[k], sigs)
    decreases Entries(batches)
  {
    if exists j :: 0 <= j < |batches| && j != k && batches[j] != [] {
      var j :| 0 <= j < |batches| && j != k && batches[j] != [];
      EntriesWithoutLast(batches, j);
      var before := GoesFirst(WithoutLast(batches, j), k, sigs);
      merged := before + [batches[j][|batches[j]| - 1]];
      assert merged[..|before|] == before && TakesLast(batches, j, merged);
    } else {
      merged := batches[k];
      GoesAlone(batches, k);
    }
  }

  lemma {:induction false} GoesAlone(batches: seq<seq<Entry>>, k: nat)
    requires k < |batches| && forall j :: 0 <= j < |batches| && j != k ==> batches[j] == []
    ensures Interleaves(batches, batches[k])
    decreases |batches[k]|
  {
    if batches[k] != [] {
      GoesAlone(WithoutLast(batches, k), k);
      assert TakesLast(batches, k, batches[k]);
    }
  }

  /** When success wins across batches: some batch settles the transaction as a success, and none
      has something else settle it first. */
  ghost predicate OnlySuccess(batches: seq<seq<Entry>>, sigs: seq<Sig>) {
    && (exists k :: 0 <= k < |batches| && FirstReason(batches[k], sigs) == Some(Success))
    && (forall k :: 0 <= k < |batches| ==>
        FirstReason(batches[k], sigs) == None || FirstReason(batches[k], sigs) == Some(Success))
  }

  lemma OnlySuccessExact(batches: seq<seq<Entry>>, sigs: seq<Sig>)
    ensures (forall merged :: Interleaves(batches, merged) ==> FirstReason(merged, sigs) == Some(Success))
            <==> OnlySuccess(batches, sigs)
  {
    if OnlySuccess(batches, sigs) {
      forall merged | Interleaves(batches, merged)
        ensures FirstReason(merged, sigs) == Some(Success)
      {
        MergedFirst(batches, merged, sigs);
      }
    } else if |batches| == 0 {
      assert Interleaves(batches, []);
    } else {
      var k := 0;
      if j :| 0 <= j < |batches| && FirstReason(batches[j], sigs) !in {None, Some(Success)} {
        k := j;
      }
      var merged := GoesFirst(batches, k, sigs);
      MergedFirst(batches, merged, sigs);
    }
  }

  /** Some batch holds a confirmed success, and so does every batch that settles the transaction at all. */
  ghost predicate SuccessInEach(batches: seq<seq<Entry>>, sigs: seq<Sig>) {
    && (exists k :: 0 <= k < |batches| && HasEntry(batches[k], sigs, Success))
    && (forall k, reason :: 0 <= k < |batches| && HasEntry(batches[k], sigs, reason) ==>
        HasEntry(batches[k], sigs, Success))
  }

  lemma RankedBatches(batches: seq<seq<Entry>>, sigs: seq<Sig>)
    requires forall k :: 0 <= k < |batches| ==> Ranked(batches[k])
    ensures OnlySuccess(batches, sigs) <==> SuccessInEach(batches, sigs)
  {
    forall k | 0 <= k < |batches|
      ensures FirstReason(batches[k], sigs) == Some(Success) <==> HasEntry(batches[k], sigs, Success)
      ensures FirstReason(batches[k], sigs) == None <==> forall reason :: !HasEntry(batches[k], sigs, reason)
    {
      RankedFirst(batches[k], sigs);
      FirstReasonFound(batches[k], sigs);
    }
  }

  lemma SettledExactly(t: Table, batch: seq<Entry>, id: Id)
    requires Consistent(t.maps) && id in t.maps.idToSigs && OutcomesOf(t.outcomes, id) == []
    ensures SettledAs(ProcessAll(t, batch), id, Success) <==> FirstReason(batch, t.maps.idToSigs[id]) == Some(Success)
  {
    FirstReasonDecides(t, batch, id, t.maps.idToSigs[id]);
  }

  /** The sorted batches of a tick settle a transaction as a success under every interleaving exactly
      when one of them holds a confirmed success of it, and every batch that settles it at all does. */
  lemma SuccessWinsAcross(t: Table, batches: seq<seq<Entry>>, id: Id)
    requires Consistent(t.maps) && id in t.maps.idToSigs && OutcomesOf(t.outcomes, id) == []
    requires forall k :: 0 <= k < |batches| ==> Ranked(batches[k])
    ensures (forall merged :: Interleaves(batches, merged) ==> SettledAs(ProcessAll(t, merged), id, Success))
            <==> SuccessInEach(batches, t.maps.idToSigs[id])
  {
    var sigs := t.maps.idToSigs[id];
    OnlySuccessExact(batches, sigs);
    RankedBatches(batches, sigs);
    forall merged
      ensures SettledAs(ProcessAll(t, merged), id, Success) <==> FirstReason(merged, sigs) == Some(Success)
    {
      SettledExactly(t, merged, id);
    }
  }

  /** A transaction with two signatures, one failed and one confirmed, in a batch each: it is counted
      as reverted or as a success, depending on which batch is processed first. */
  lemma BatchesRace()
    ensures var t := Table(Added(Created(Maps(map[], map[], map[], map[]), 1, 7, 0, 0), 7, 2), []);
            var (a, b) := (Entry(1, Status(Confirmed, true), false), Entry(2, Status(Confirmed, false), false));
            && Consistent(t.maps) && Pending(t, 7, [1, 2]) && Ranked([a]) && Ranked([b])
            && Interleaves([[a], [b]], [a, b]) && SettledAs(ProcessAll(t, [a, b]), 7, Revert)
            && Interleaves([[a], [b]], [b, a]) && SettledAs(ProcessAll(t, [b, a]), 7, Success)
  {
    var empty := Maps(map[], map[], map[], map[]);
    CreatedConsistent(empty, 1, 7, 0, 0);
    AddedConsistent(Created(empty, 1, 7, 0, 0), 7, 2);
    var t := Table(Added(Created(empty, 1, 7, 0, 0), 7, 2), []);
    var (a, b) := (Entry(1, Status(Confirmed, true), false), Entry(2, Status(Confirmed, false), false));
    TwoInterleavings(a, b);
    FirstOfTwo(a, b, [1, 2]);
    FirstOfTwo(b, a, [1, 2]);
    FirstReasonDecides(t, [a, b], 7, [1, 2]);
    FirstReasonDecides(t, [b, a], 7, [1, 2]);
  }

  lemma TwoInterleavings(a: Entry, b: Entry)
    ensures Interleaves([[a], [b]], [a, b]) && Interleaves([[a], [b]], [b, a])
  {
    var batches := [[a], [b]];
    GoesAlone(WithoutLast(batches, 1), 0);
    assert TakesLast(batches, 1, [a, b]) && [a, b][..1] == WithoutLast(batches, 1)[0];
    GoesAlone(WithoutLast(batches, 0), 1);
    assert TakesLast(batches, 0, [b, a]) && [b, a][..1] == WithoutLast(batches, 0)[1];
  }

  lemma FirstOfTwo(a: Entry, b: Entry, sigs: seq<Sig>)
    requires a.sig in sigs && ReasonFor(a).Some?
    ensures FirstReason([a, b], sigs) == ReasonFor(a)
  {
    assert [a, b][..1] == [a] && [a][..0] == [];
    assert FirstReason([a], sigs) == ReasonFor(a);
  }

  // ----- Other goroutines at work

  /** One critical section on the table: an entry of this batch, or what another goroutine does meanwhile.
      Other batches and simulation settle, retries add signatures, and new transactions come in. */
  datatype Action =
    | Process(entry: Entry)
    | Remove(sig: Sig, reason: Reason)
    | AddSig(id: Id, sig: Sig)
    | Create(sig: Sig, id: Id, cancel: nat, now: int)

  /** A new id is neither nil nor one seen before. */
  predicate NewId(t: Table, id: Id) {
    id != NIL && id !in t.maps.idToSigs && OutcomesOf(t.outcomes, id) == []
  }

  function Act(t: Table, a: Action): Table {
    match a
    case Process(e) => ProcessOne(t, e)
    case Remove(sig, reason) => Settle(t, sig, reason)
    case AddSig(id, sig) => t.(maps := Added(t.maps, id, sig))
    case Create(sig, id, cancel, now) => if NewId(t, id) then t.(maps := Created(t.maps, sig, id, cancel, now)) else t
  }

  function ActAll(t: Table, actions: seq<Action>): Table {
    if actions == [] then t else Act(ActAll(t, actions[..|actions| - 1]), actions[|actions| - 1])
  }

  /** What an action settles a transaction as, given the signatures it has at that moment. */
  ghost function SettlesNow(t: Table, a: Action, id: Id): Option<Reason> {
    match a
    case Process(e) => if Lists(t.maps.idToSigs, id, e.sig) then ReasonFor(e) else None
    case Remove(sig, reason) => if Lists(t.maps.idToSigs, id, sig) then Some(reason) else None
    case _ => None
  }

  /** The reason of the first action that settles a transaction. */
  ghost function Decided(t: Table, actions: seq<Action>, id: Id): Option<Reason> {
    if actions == [] then None else
    var front := actions[..|actions| - 1];
    if Decided(t, front, id).Some? then Decided(t, front, id)
    else SettlesNow(ActAll(t, front), actions[|actions| - 1], id)
  }

  /** Pending, with at least these signatures. */
  ghost predicate StillPending(t: Table, id: Id, sigs: seq<Sig>) {
    id in t.maps.idToSigs && sigs <= t.maps.idToSigs[id] && OutcomesOf(t.outcomes, id) == []
  }

  ghost predicate Ends(t: Table, id: Id, sigs: seq<Sig>, decided: Option<Reason>) {
    match decided
    case Some(reason) => SettledAs(t, id, reason)
    case None => StillPending(t, id, sigs)
  }

  lemma SettleKeeps(t: Table, sig: Sig, reason: Reason, id: Id, sigs: seq<Sig>, decided: Option<Reason>)
    requires Consistent(t.maps) && id != NIL && Ends(t, id, sigs, decided)
    ensures var t' := Settle(t, sig, reason);
            && Consistent(t'.maps)
            && Ends(t', id, sigs, if decided.None? && Lists(t.maps.idToSigs, id, sig) then Some(reason) else decided)
  {
    SettleOne(t, sig, reason, id);
    assert Lists(t.maps.idToSigs, id, sig) <==> Points(t.maps.sigToId, sig, id);
  }

  lemma AddKeeps(t: Table, a: Action, id: Id, sigs: seq<Sig>, decided: Option<Reason>)
    requires Consistent(t.maps) && id != NIL && Ends(t, id, sigs, decided) && (a.AddSig? || a.Create?)
    ensures Consistent(Act(t, a).maps) && Ends(Act(t, a), id, sigs, decided)
  {
    match a
    case AddSig(other, sig) => AddedConsistent(t.maps, other, sig);
    case Create(sig, other, cancel, now) =>
      if NewId(t, other) {
        CreatedConsistent(t.maps, sig, other, cancel, now);
      }
  }

  lemma ActKeeps(t: Table, a: Action, id: Id, sigs: seq<Sig>, decided: Option<Reason>)
    requires Consistent(t.maps) && id != NIL && Ends(t, id, sigs, decided)
    ensures Consistent(Act(t, a).maps)
    ensures Ends(Act(t, a), id, sigs, if decided.Some? then decided else SettlesNow(t, a, id))
  {
    match a
    case Process(e) =>
      ProcessOneByReason(t, e);
      if ReasonFor(e).Some? {
        SettleKeeps(t, e.sig, ReasonFor(e).value, id, sigs, decided);
      }
    case Remove(sig, reason) => SettleKeeps(t, sig, reason, id, sigs, decided);
    case _ => AddKeeps(t, a, id, sigs, decided);
  }

  /** Whatever goroutines do in whatever order, a pending transaction is settled at most once, as the
      first action that settles it says; otherwise it stays pending and keeps its signatures. */
  lemma {:induction false} DecidedOnce(t: Table, actions: seq<Action>, id: Id)
    requires Consistent(t.maps) && id in t.maps.idToSigs && OutcomesOf(t.outcomes, id) == []
    ensures var t' := ActAll(t, actions);
            Consistent(t'.maps) && Ends(t', id, t.maps.idToSigs[id], Decided(t, actions, id))
  {
    if actions != [] {
      var (front, last) := (actions[..|actions| - 1], actions[|actions| - 1]);
      DecidedOnce(t, front, id);
      ActKeeps(ActAll(t, front), last, id, t.maps.idToSigs[id], Decided(t, front, id));
    }
  }

  /** The entries of a batch, each after what others did before it. */
  function Weave(others: seq<seq<Action>>, batch: seq<Entry>): seq<Action>
    requires |others| == |batch|
  {
    if batch == [] then [] else
    var n := |batch| - 1;
    Weave(others[..n], batch[..n]) + others[n] + [Process(batch[n])]
  }

  lemma {:induction false} ActConcat(t: Table, a: seq<Action>, b: seq<Action>)
    ensures ActAll(t, a + b) == ActAll(ActAll(t, a), b)
  {
    if b == [] {
      assert a + b == a;
    } else {
      ActConcat(t, a, b[..|b| - 1]);
      assert (a + b)[..|a + b| - 1] == a + b[..|b| - 1];
    }
  }

  // ----- Success still wins while others only add

  ghost predicate Adds(actions: seq<Action>) {
    forall i :: 0 <= i < |actions| ==> actions[i].AddSig? || actions[i].Create?
  }

  lemma {:induction false} AddsDecideNothing(t: Table, a: seq<Action>, b: seq<Action>, id: Id)
    requires Adds(b)
    ensures Decided(t, a + b, id) == Decided(t, a, id)
  {
    if b == [] {
      assert a + b == a;
    } else {
      AddsDecideNothing(t, a, b[..|b| - 1], id);
      assert (a + b)[..|a + b| - 1] == a + b[..|b| - 1];
    }
  }

  lemma SuccessStillWins(t: Table, others: seq<seq<Action>>, batch: seq<Entry>, id: Id, winner: nat)
    requires Consistent(t.maps) && id in t.maps.idToSigs && OutcomesOf(t.outcomes, id) == []
    requires |others| == |batch| && Ranked(batch) && forall i :: 0 <= i < |others| ==> Adds(others[i])
    requires winner < |batch| && batch[winner].sig in t.maps.idToSigs[id] && Succeeded(batch[winner].status)
    ensures Decided(t, Weave(others, batch), id) == Some(Success)
  {
    RanksBefore(batch, winner);
    LastWinsBatch(t, others[..winner + 1], batch[..winner + 1], id, batch[winner]);
    WeaveStays(t, others, batch, id, winner + 1);
  }

  lemma LastWinsBatch(t: Table, others: seq<seq<Action>>, batch: seq<Entry>, id: Id, last: Entry)
    requires Consistent(t.maps) && id in t.maps.idToSigs && OutcomesOf(t.outcomes, id) == []
    requires |others| == |batch| > 0 && batch[|batch| - 1] == last
    requires forall i :: 0 <= i < |others| ==> Adds(others[i])
    requires forall i :: 0 <= i < |batch| - 1 ==> ConvertStatus(batch[i].status) >= CONFIRMED_SUCCESS
    requires last.sig in t.maps.idToSigs[id] && Succeeded(last.status)
    ensures Decided(t, Weave(others, batch), id) == Some(Success)
  {
    var n := |batch| - 1;
    WeaveSnoc(t, others, batch, id);
    OnlySuccessSoFar(t, others[..n], batch[..n], id);
    LastWins(t, Weave(others[..n], batch[..n]) + others[n], last, id);
  }

  /** What is decided stays decided. */
  lemma {:induction false} WeaveStays(t: Table, others: seq<seq<Action>>, batch: seq<Entry>, id: Id, k: nat)
    requires k <= |others| == |batch| && forall i :: 0 <= i < |others| ==> Adds(others[i])
    requires Decided(t, Weave(others[..k], batch[..k]), id).Some?
    ensures Decided(t, Weave(others, batch), id) == Decided(t, Weave(others[..k], batch[..k]), id)
  {
    var n := |batch| - 1;
    if k == |batch| {
      assert others[..k] == others && batch[..k] == batch;
    } else {
      assert others[..n][..k] == others[..k] && batch[..n][..k] == batch[..k];
      WeaveStays(t, others[..n], batch[..n], id, k);
      WeaveSnoc(t, others, batch, id);
      DecidedSnoc(t, Weave(others[..n], batch[..n]) + others[n], Process(batch[n]), id);
    }
  }

  lemma RanksBefore(batch: seq<Entry>, k: nat)
    requires Ranked(batch) && k < |batch| && Succeeded(batch[k].status)
    ensures forall i :: 0 <= i < k ==> ConvertStatus(batch[i].status) >= CONFIRMED_SUCCESS
  {
    SuccessRanksFirst(batch[k]);
  }

  /** A success settles what nothing has settled before. */
  lemma LastWins(t: Table, before: seq<Action>, e: Entry, id: Id)
    requires Consistent(t.maps) && id in t.maps.idToSigs && OutcomesOf(t.outcomes, id) == []
    requires e.sig in t.maps.idToSigs[id] && Succeeded(e.status)
    requires Decided(t, before, id) == None || Decided(t, before, id) == Some(Success)
    ensures Decided(t, before + [Process(e)], id) == Some(Success)
  {
    DecidedOnce(t, before, id);
    assert (before + [Process(e)])[..|before|] == before;
  }

  lemma WeaveSnoc(t: Table, others: seq<seq<Action>>, batch: seq<Entry>, id: Id)
    requires |others| == |batch| > 0 && Adds(others[|batch| - 1])
    ensures var n := |batch| - 1;
            var before := Weave(others[..n], batch[..n]) + others[n];
            && Decided(t, before, id) == Decided(t, Weave(others[..n], batch[..n]), id)
            && Weave(others, batch) == before + [Process(batch[n])]
  {
    AddsDecideNothing(t, Weave(others[..|batch| - 1], batch[..|batch| - 1]), others[|batch| - 1], id);
  }

  lemma DecidedSnoc(t: Table, before: seq<Action>, a: Action, id: Id)
    ensures Decided(t, before + [a], id)
            == if Decided(t, before, id).Some? then Decided(t, before, id) else SettlesNow(ActAll(t, before), a, id)
  {
    assert (before + [a])[..|before|] == before;
  }

  /** Confirmed successes settle as nothing else. */
  lemma {:induction false} OnlySuccessSoFar(t: Table, others: seq<seq<Action>>, batch: seq<Entry>, id: Id)
    requires |others| == |batch| && forall i :: 0 <= i < |others| ==> Adds(others[i])
    requires forall i :: 0 <= i < |batch| ==> ConvertStatus(batch[i].status) >= CONFIRMED_SUCCESS
    ensures Decided(t, Weave(others, batch), id) == None || Decided(t, Weave(others, batch), id) == Some(Success)
  {
    if batch != [] {
      var n := |batch| - 1;
      WeaveSnoc(t, others, batch, id);
      DecidedSnoc(t, Weave(others[..n], batch[..n]) + others[n], Process(batch[n]), id);
      OnlySuccessSoFar(t, others[..n], batch[..n], id);
      SuccessRanksFirst(batch[n]);
    }
  }

  // ----- The loop

  function Batch(sigs: seq<Sig>, res: seq<Status>, expired: seq<bool>): (r: seq<Entry>)
    requires |sigs| == |res| == |expired|
    ensures |r| == |sigs|
  {
    seq(|sigs|, i requires 0 <= i < |sigs| => Entry(sigs[i], res[i], expired[i]))
  }

  /** Every transaction pending at the start ends as the first action that settles it says, and once. */
  ghost predicate EachEnds(before: Maps, actions: seq<Action>, after: Table) {
    forall id :: id in before.idToSigs ==>
      Ends(after, id, before.idToSigs[id], Decided(Table(before, []), actions, id))
  }

  lemma ActionsEnd(maps: Maps, actions: seq<Action>)
    requires Consistent(maps)
    ensures EachEnds(maps, actions, ActAll(Table(maps, []), actions))
  {
    forall id | id in maps.idToSigs
      ensures Ends(ActAll(Table(maps, []), actions), id, maps.idToSigs[id], Decided(Table(maps, []), actions, id))
    {
      DecidedOnce(Table(maps, []), actions, id);
    }
  }

  /** Every transaction with a confirmed success among the signatures ends as one success. */
  ghost predicate SuccessesSettled(before: Maps, sigs: seq<Sig>, res: seq<Status>, after: Table)
    requires |sigs| == |res|
  {
    forall id, i ::
      (id in before.idToSigs && 0 <= i < |sigs| && sigs[i] in before.idToSigs[id] && Succeeded(res[i]))
      ==> SettledAs(after, id, Success)
  }

  /** While others only add, a success wins in whatever order an unstable sort leaves equal statuses. */
  lemma SortedBatchSettles(maps: Maps, sigs: seq<Sig>, res: seq<Status>, sigs': seq<Sig>, res': seq<Status>,
                           expired: seq<bool>, others: seq<seq<Action>>)
    requires Consistent(maps) && |sigs| == |res| && |sigs'| == |res'| == |expired| == |others|
    requires BestFirst(res') && multiset(Pairs(sigs', res')) == multiset(Pairs(sigs, res))
    requires forall i :: 0 <= i < |others| ==> Adds(others[i])
    ensures SuccessesSettled(maps, sigs, res, ActAll(Table(maps, []), Weave(others, Batch(sigs', res', expired))))
  {
    var (t, batch) := (Table(maps, []), Batch(sigs', res', expired));
    forall id, i | id in maps.idToSigs && 0 <= i < |sigs| && sigs[i] in maps.idToSigs[id] && Succeeded(res[i])
      ensures SettledAs(ActAll(t, Weave(others, batch)), id, Success)
    {
      assert Pairs(sigs, res)[i] in multiset(Pairs(sigs', res'));
      var winner :| 0 <= winner < |batch| && Pairs(sigs', res')[winner] == (sigs[i], res[i]);
      SuccessStillWins(t, others, batch, id, winner);
      DecidedOnce(t, Weave(others, batch), id);
    }
  }

  /** `processSigs`: sort, then settle in order. `expired` is the clock's answer at each position, and
      `others` what other goroutines do to the table before it. */
  method ProcessSigs(ctx: PendingTxContext, sigs: array<Sig>, res: array<Status>, expired: seq<bool>,
                     others: seq<seq<Action>>)
    returns (ok: bool, outcomes: seq<Outcome>)
    requires Consistent(ctx.Value()) && |expired| == |others| == res.Length
    modifies ctx, sigs, res
    ensures ok <==> sigs.Length == res.Length
    ensures !ok ==> ctx.Value() == old(ctx.Value()) && outcomes == []
    ensures ok ==> BestFirst(res[..])
    ensures ok ==> multiset(Pairs(sigs[..], res[..])) == multiset(Pairs(old(sigs[..]), old(res[..])))
    ensures ok ==> EachEnds(old(ctx.Value()), Weave(others, Batch(sigs[..], res[..], expired)),
                            Table(ctx.Value(), outcomes))
    ensures ok && (forall i :: 0 <= i < |others| ==> Adds(others[i])) ==>
              SuccessesSettled(old(ctx.Value()), old(sigs[..]), old(res[..]), Table(ctx.Value(), outcomes))
    ensures Consistent(ctx.Value())
  {
    outcomes := [];
    ghost var before := ctx.Value();
    ok := SortSignaturesAndResults(sigs, res);
    if !ok {
      return;
    }
    if forall i :: 0 <= i < |others| ==> Adds(others[i]) {
      SortedBatchSettles(before, old(sigs[..]), old(res[..]), sigs[..], res[..], expired, others);
    }
    ActionsEnd(before, Weave(others, Batch(sigs[..], res[..], expired)));
    outcomes := SettleInOrder(ctx, sigs[..], res[..], expired, others);
  }

  method SettleInOrder(ctx: PendingTxContext, sigs: seq<Sig>, res: seq<Status>, expired: seq<bool>,
                       others: seq<seq<Action>>)
    returns (outcomes: seq<Outcome>)
    requires Consistent(ctx.Value()) && |expired| == |res| == |sigs| == |others|
    modifies ctx
    ensures Consistent(ctx.Value())
    ensures Table(ctx.Value(), outcomes)
            == ActAll(Table(old(ctx.Value()), []), Weave(others, Batch(sigs, res, expired)))
  {
    outcomes := [];
    ghost var (start, batch) := (Table(ctx.Value(), []), Batch(sigs, res, expired));
    for i := 0 to |res|
      invariant Consistent(ctx.Value())
      invariant Table(ctx.Value(), outcomes) == ActAll(start, Weave(others[..i], batch[..i]))
    {
      ghost var woven := Weave(others[..i], batch[..i]);
      assert batch[..i + 1][..i] == batch[..i] && others[..i + 1][..i] == others[..i];
      ActConcat(start, woven, others[i]);
      outcomes := Interfere(ctx, outcomes, others[i]);
      var settled := ProcessSig(ctx, sigs[i], res[i], expired[i]);
      outcomes := outcomes + settled;
      assert (woven + others[i] + [Process(batch[i])])[..|woven + others[i]|] == woven + others[i];
    }
    assert batch[..|res|] == batch && others[..|res|] == others;
  }

  /** What other goroutines do, one critical section after the other. */
  method Interfere(ctx: PendingTxContext, before: seq<Outcome>, actions: seq<Action>) returns (outcomes: seq<Outcome>)
    requires Consistent(ctx.Value())
    modifies ctx
    ensures Consistent(ctx.Value())
    ensures Table(ctx.Value(), outcomes) == ActAll(Table(old(ctx.Value()), before), actions)
  {
    outcomes := before;
    ghost var start := Table(ctx.Value(), before);
    for k := 0 to |actions|
      invariant Consistent(ctx.Value())
      invariant Table(ctx.Value(), outcomes) == ActAll(start, actions[..k])
    {
      assert actions[..k + 1][..k] == actions[..k];
      outcomes := Perform(ctx, outcomes, actions[k]);
    }
    assert actions[..|actions|] == actions;
  }

  method Perform(ctx: PendingTxContext, before: seq<Outcome>, action: Action) returns (outcomes: seq<Outcome>)
    requires Consistent(ctx.Value())
    modifies ctx
    ensures Consistent(ctx.Value())
    ensures Table(ctx.Value(), outcomes) == Act(Table(old(ctx.Value()), before), action)
  {
    outcomes := before;
    match action {
      case Process(e) =>
        var settled := ProcessSig(ctx, e.sig, e.status, e.expired);
        outcomes := before + settled;
      case Remove(sig, reason) =>
        var settled := OnRemoved(ctx, sig, reason);
        outcomes := before + settled;
      case AddSig(id, sig) =>
        var added := ctx.AddLocked(id, sig);
      case Create(sig, id, cancel, now) =>
        if id != NIL && id !in ctx.idToSigs && OutcomesOf(before, id) == [] {
          var created := ctx.NewLocked(sig, id, cancel, now);
        }
    }
  }

  /** One signature: the branches of the loop body. */
  method ProcessSig(ctx: PendingTxContext, sig: Sig, status: Status, expired: bool) returns (settled: seq<Outcome>)
    requires Consistent(ctx.Value())
    modifies ctx
    ensures Consistent(ctx.Value())
    ensures forall outcomes ::
              Table(ctx.Value(), outcomes + settled)
              == ProcessOne(Table(old(ctx.Value()), outcomes), Entry(sig, status, expired))
  {
    settled := [];
    assert forall outcomes: seq<Outcome> :: outcomes + [] == outcomes;
    if status == Missing {
      if expired && sig in ctx.sigToId {
        settled := OnRemoved(ctx, sig, Drop);
      }
      return;
    }
    if status.failed {
      settled := OnRemoved(ctx, sig, Revert);
      return;
    }
    if status.commitment == Processed {
      if expired && sig in ctx.sigToId {
        settled := OnRemoved(ctx, sig, Drop);
      }
      return;
    }
    if status.commitment == Confirmed || status.commitment == Finalized {
      settled := OnRemoved(ctx, sig, Success);
    }
  }

  method OnRemoved(ctx: PendingTxContext, sig: Sig, reason: Reason) returns (settled: seq<Outcome>)
    requires Consistent(ctx.Value())
    modifies ctx
    ensures Consistent(ctx.Value())
    ensures forall outcomes ::
              Table(ctx.Value(), outcomes + settled) == Settle(Table(old(ctx.Value()), outcomes), sig, reason)
  {
    var id := ctx.RemoveLocked(sig);
    assert forall outcomes: seq<Outcome> :: outcomes + [] == outcomes;
    settled := if id != NIL then [Outcome(id, reason)] else [];
  }
}

/** The transaction manager's table of pending transactions: four maps behind one
    lock, where every operation checks under the read lock and checks again under
    the write lock. The critical sections are methods; every interleaving of them
    is a run of a state machine. */
module PendingTx {
  import opened Collections

  type Sig = nat
  /** Transaction ids; `NIL` is the zero UUID. */
  type Id = nat
  const NIL: Id := 0

  datatype Maps = Maps(
    cancelBy: map<Id, nat>, timestamp: map<Id, int>, sigToId: map<Sig, Id>, idToSigs: map<Id, seq<Sig>>)

  // ----- Critical sections, as functions of the maps

  function Created(m: Maps, sig: Sig, id: Id, cancel: nat, now: int): Maps {
    if sig in m.sigToId then m
    else Maps(m.cancelBy[id := cancel], m.timestamp[id := now], m.sigToId[sig := id], m.idToSigs[id := [sig]])
  }

  function Added(m: Maps, id: Id, sig: Sig): Maps {
    if sig in m.sigToId || id !in m.idToSigs then m
    else m.(sigToId := m.sigToId[sig := id], idToSigs := m.idToSigs[id := m.idToSigs[id] + [sig]])
  }

  /** The id `Remove` returns, whether or not it removed it. */
  function ReturnedId(m: Maps, sig: Sig): Id {
    if sig in m.sigToId then m.sigToId[sig] else NIL
  }

  predicate Removes(m: Maps, sig: Sig) {
    sig in m.sigToId && m.sigToId[sig] in m.idToSigs
  }

  function SigSet(sigs: seq<Sig>): set<Sig> {
    set s | s in sigs
  }

  function Removed(m: Maps, sig: Sig): Maps {
    if !Removes(m, sig) then m else
    var id := m.sigToId[sig];
    Maps(m.cancelBy - {id}, m.timestamp - {id}, m.sigToId - SigSet(m.idToSigs[id]), m.idToSigs - {id})
  }

  predicate Lists(idToSigs: map<Id, seq<Sig>>, id: Id, sig: Sig) {
    id in idToSigs && sig in idToSigs[id]
  }

  predicate Points(sigToId: map<Sig, Id>, sig: Sig, id: Id) {
    sig in sigToId && sigToId[sig] == id
  }

  /** The two indices are inverse to each other. */
  ghost predicate Inverse(sigToId: map<Sig, Id>, idToSigs: map<Id, seq<Sig>>) {
    forall id, sig :: Lists(idToSigs, id, sig) <==> Points(sigToId, sig, id)
  }

  /** Every pending id has signatures, without repetition. */
  ghost predicate Signed(idToSigs: map<Id, seq<Sig>>) {
    forall id :: id in idToSigs ==> idToSigs[id] != [] && NoRepeats(idToSigs[id])
  }

  ghost predicate NoRepeats(s: seq<Sig>) {
    forall i, j :: 0 <= i < j < |s| ==> s[i] != s[j]
  }

  /** The four maps agree on what is pending. */
  ghost predicate Consistent(m: Maps) {
    && m.cancelBy.Keys == m.idToSigs.Keys && m.timestamp.Keys == m.idToSigs.Keys
    && NIL !in m.idToSigs
    && Inverse(m.sigToId, m.idToSigs)
    && Signed(m.idToSigs)
  }

  lemma InverseAfterNew(sigToId: map<Sig, Id>, idToSigs: map<Id, seq<Sig>>, sig: Sig, id: Id)
    requires Inverse(sigToId, idToSigs) && sig !in sigToId && id !in idToSigs
    ensures Inverse(sigToId[sig := id], idToSigs[id := [sig]])
  {
    var (sigToId', idToSigs') := (sigToId[sig := id], idToSigs[id := [sig]]);
    forall i, s
      ensures Lists(idToSigs', i, s) <==> Points(sigToId', s, i)
    {
      assert Lists(idToSigs, i, s) <==> Points(sigToId, s, i);
    }
  }

  lemma InverseAfterAdd(sigToId: map<Sig, Id>, idToSigs: map<Id, seq<Sig>>, id: Id, sig: Sig)
    requires Inverse(sigToId, idToSigs) && sig !in sigToId && id in idToSigs
    ensures Inverse(sigToId[sig := id], idToSigs[id := idToSigs[id] + [sig]])
  {
    var (sigToId', idToSigs') := (sigToId[sig := id], idToSigs[id := idToSigs[id] + [sig]]);
    forall i, s
      ensures Lists(idToSigs', i, s) <==> Points(sigToId', s, i)
    {
      assert Lists(idToSigs, i, s) <==> Points(sigToId, s, i);
    }
  }

  lemma InverseAfterRemove(sigToId: map<Sig, Id>, idToSigs: map<Id, seq<Sig>>, id: Id)
    requires Inverse(sigToId, idToSigs) && id in idToSigs
    ensures Inverse(sigToId - SigSet(idToSigs[id]), idToSigs - {id})
  {
    var gone := SigSet(idToSigs[id]);
    var (sigToId', idToSigs') := (sigToId - gone, idToSigs - {id});
    forall i, s
      ensures Lists(idToSigs', i, s) <==> Points(sigToId', s, i)
    {
      assert Lists(idToSigs, i, s) <==> Points(sigToId, s, i);
      assert Lists(idToSigs, id, s) <==> Points(sigToId, s, id);
    }
  }

  lemma CreatedConsistent(m: Maps, sig: Sig, id: Id, cancel: nat, now: int)
    requires Consistent(m) && id != NIL && id !in m.idToSigs
    ensures Consistent(Created(m, sig, id, cancel, now))
    ensures sig !in m.sigToId ==>
              && Created(m, sig, id, cancel, now).idToSigs.Keys == m.idToSigs.Keys + {id}
              && |Created(m, sig, id, cancel, now).idToSigs| == |m.idToSigs| + 1
  {
    if sig !in m.sigToId {
      InverseAfterNew(m.sigToId, m.idToSigs, sig, id);
      AddKey(m.idToSigs, id, [sig]);
    }
  }

  lemma AddedConsistent(m: Maps, id: Id, sig: Sig)
    requires Consistent(m)
    ensures Consistent(Added(m, id, sig)) && Added(m, id, sig).idToSigs.Keys == m.idToSigs.Keys
  {
    if sig !in m.sigToId && id in m.idToSigs {
      InverseAfterAdd(m.sigToId, m.idToSigs, id, sig);
      assert !Points(m.sigToId, sig, id) && !Lists(m.idToSigs, id, sig);
      assert NoRepeats(m.idToSigs[id] + [sig]);
      assert Added(m, id, sig).idToSigs.Keys == m.idToSigs.Keys;
    }
  }

  /** A non-nil answer from `Remove` means that very id was pending and no longer is. */
  lemma RemovedConsistent(m: Maps, sig: Sig)
    requires Consistent(m)
    ensures Consistent(Removed(m, sig))
    ensures Removes(m, sig) <==> sig in m.sigToId
    ensures Removes(m, sig) <==> ReturnedId(m, sig) != NIL
    ensures Removes(m, sig) ==> Removed(m, sig).idToSigs.Keys == m.idToSigs.Keys - {ReturnedId(m, sig)}
                                && |Removed(m, sig).idToSigs| + 1 == |m.idToSigs|
  {
    if sig in m.sigToId {
      var id := m.sigToId[sig];
      assert Points(m.sigToId, sig, id) && Lists(m.idToSigs, id, sig);
      InverseAfterRemove(m.sigToId, m.idToSigs, id);
      DropKey(m.idToSigs, id);
    }
  }

  // ----- The table

  class PendingTxContext {
    var cancelBy: map<Id, nat>
    var timestamp: map<Id, int>
    var sigToId: map<Sig, Id>
    var idToSigs: map<Id, seq<Sig>>
    /** The cancel functions called so far. */
    var cancelled: seq<nat>

    constructor ()
      ensures Value() == Maps(map[], map[], map[], map[]) && cancelled == [] && Consistent(Value())
    {
      cancelBy, timestamp, sigToId, idToSigs, cancelled := map[], map[], map[], map[], [];
    }

    function Value(): Maps
      reads this
    {
      Maps(cancelBy, timestamp, sigToId, idToSigs)
    }

    /** `New` under the write lock, with the id the UUID generator gave. */
    method NewLocked(sig: Sig, id: Id, cancel: nat, now: int) returns (ok: bool)
      requires Consistent(Value()) && id != NIL && id !in idToSigs
      modifies this
      ensures Value() == Created(old(Value()), sig, id, cancel, now) && ok == (sig !in old(sigToId))
      ensures cancelled == old(cancelled) && Consistent(Value())
    {
      CreatedConsistent(Value(), sig, id, cancel, now);
      if sig in sigToId {
        return false;
      }
      cancelBy := cancelBy[id := cancel];
      timestamp := timestamp[id := now];
      sigToId := sigToId[sig := id];
      idToSigs := idToSigs[id := [sig]];
      return true;
    }

    /** `Add` under the write lock. */
    method AddLocked(id: Id, sig: Sig) returns (ok: bool)
      requires Consistent(Value())
      modifies this
      ensures Value() == Added(old(Value()), id, sig) && ok == (sig !in old(sigToId) && id in old(idToSigs))
      ensures cancelled == old(cancelled) && Consistent(Value())
    {
      AddedConsistent(Value(), id, sig);
      if sig in sigToId {
        return false;
      }
      if id !in idToSigs {
        return false;
      }
      sigToId := sigToId[sig := id];
      idToSigs := idToSigs[id := idToSigs[id] + [sig]];
      return true;
    }

    /** `Remove` under the write lock: cancel, then delete the id and each of its signatures. */
    method RemoveLocked(sig: Sig) returns (id: Id)
      requires Consistent(Value())
      modifies this
      ensures Value() == Removed(old(Value()), sig) && id == ReturnedId(old(Value()), sig)
      ensures cancelled == if Removes(old(Value()), sig) then old(cancelled) + [old(cancelBy)[id]] else old(cancelled)
      ensures Consistent(Value())
    {
      RemovedConsistent(Value(), sig);
      if sig !in sigToId {
        return NIL;
      }
      id := sigToId[sig];
      if id in idToSigs {
        Delete(id);
      }
    }

    /** Cancel, and delete the id from all four maps. */
    method Delete(id: Id)
      requires id in idToSigs && id in cancelBy
      modifies this
      ensures Value() == Maps(old(cancelBy) - {id}, old(timestamp) - {id}, old(sigToId) - SigSet(old(idToSigs)[id]),
                              old(idToSigs) - {id})
      ensures cancelled == old(cancelled) + [old(cancelBy)[id]]
    {
      var sigs := idToSigs[id];
      cancelled := cancelled + [cancelBy[id]];
      cancelBy := cancelBy - {id};
      timestamp := timestamp - {id};
      idToSigs := idToSigs - {id};
      DeleteSigs(sigs);
    }

    method DeleteSigs(sigs: seq<Sig>)
      modifies this`sigToId
      ensures sigToId == old(sigToId) - SigSet(sigs)
    {
      for i := 0 to |sigs|
        invariant sigToId == old(sigToId) - SigSet(sigs[..i])
      {
        sigToId := sigToId - {sigs[i]};
        assert sigs[..i + 1] == sigs[..i] + [sigs[i]];
      }
      assert sigs[..|sigs|] == sigs;
    }
  }

  // ----- Every interleaving

  /** Why a transaction is removed: the callers of `OnSuccess`, `OnError` and `Remove`. */
  datatype Reason = Success | Revert | Drop | SimRevert | SimOther | Plain

  /** Where a goroutine is between its critical sections. */
  datatype Pc =
    | Idle
    | NewChecked(sig: Sig, cancel: nat)
    | AddChecked(id: Id, sig: Sig)
    | RemoveChecked(sig: Sig, reason: Reason)
    /** `Remove` has returned an id; the metrics are not yet incremented. */
    | Counting(id: Id, reason: Reason)

  datatype Counters = Counters(success: nat, revert: nat, drop: nat, simRevert: nat, simOther: nat, reject: nat,
                               error: nat)

  datatype System = System(
    maps: Maps, threads: map<nat, Pc>, counters: Counters,
    /** Ids handed out by the UUID generator. */
    issued: set<Id>,
    /** Ids whose cancel function ran, with multiplicity. */
    cancelled: multiset<Id>,
    /** Successful `New` calls, and ids removed for a reason that has no counter of its own. */
    created: nat, uncounted: nat)

  datatype Step =
    | BeginNew(thread: nat, sig: Sig, cancel: nat)
    | CommitNew(thread: nat, id: Id, now: int)
    | BeginAdd(thread: nat, id: Id, sig: Sig)
    | CommitAdd(thread: nat)
    | BeginRemove(thread: nat, sig: Sig, reason: Reason)
    | CommitRemove(thread: nat)
    | Count(thread: nat)
    | Reject

  predicate At(s: System, thread: nat, pc: Pc) {
    thread in s.threads && s.threads[thread] == pc
  }

  function Goto(s: System, thread: nat, pc: Pc): System {
    s.(threads := s.threads[thread := pc])
  }

  function Bump(c: Counters, id: Id, reason: Reason): Counters {
    match reason
    case Success => if id != NIL then c.(success := c.success + 1) else c
    case Revert => if id != NIL then c.(revert := c.revert + 1, error := c.error + 1) else c
    case Drop => if id != NIL then c.(drop := c.drop + 1, error := c.error + 1) else c
    case SimRevert => c.(simRevert := c.simRevert + 1, error := c.error + 1)
    case SimOther => c.(simOther := c.simOther + 1, error := c.error + 1)
    case Plain => c
  }

  predicate HasCounter(reason: Reason) {
    reason.Success? || reason.Revert? || reason.Drop?
  }

  /** One critical section of one goroutine; a step that is not enabled does nothing. */
  function Next(s: System, step: Step): System {
    match step
    case BeginNew(thread, sig, cancel) =>
      if !At(s, thread, Idle) || sig in s.maps.sigToId then s
      else Goto(s, thread, NewChecked(sig, cancel))
    case CommitNew(thread, id, now) =>
      if thread !in s.threads || !s.threads[thread].NewChecked? || id == NIL || id in s.issued then s else
      var NewChecked(sig, cancel) := s.threads[thread];
      var done := Goto(s, thread, Idle);
      if sig in s.maps.sigToId then done
      else done.(maps := Created(s.maps, sig, id, cancel, now), issued := s.issued + {id}, created := s.created + 1)
    case BeginAdd(thread, id, sig) =>
      if !At(s, thread, Idle) || sig in s.maps.sigToId || id !in s.maps.idToSigs then s
      else Goto(s, thread, AddChecked(id, sig))
    case CommitAdd(thread) =>
      if thread !in s.threads || !s.threads[thread].AddChecked? then s else
      var AddChecked(id, sig) := s.threads[thread];
      Goto(s, thread, Idle).(maps := Added(s.maps, id, sig))
    case BeginRemove(thread, sig, reason) =>
      if !At(s, thread, Idle) then s
      else if sig !in s.maps.sigToId then Goto(s, thread, Counting(NIL, reason))
      else if s.maps.sigToId[sig] !in s.maps.idToSigs then Goto(s, thread, Counting(s.maps.sigToId[sig], reason))
      else Goto(s, thread, RemoveChecked(sig, reason))
    case CommitRemove(thread) =>
      if thread !in s.threads || !s.threads[thread].RemoveChecked? then s else
      var RemoveChecked(sig, reason) := s.threads[thread];
      var id := ReturnedId(s.maps, sig);
      Goto(s, thread, Counting(id, reason))
        .(maps := Removed(s.maps, sig),
          cancelled := if Removes(s.maps, sig) then s.cancelled + multiset{id} else s.cancelled)
    case Count(thread) =>
      if thread !in s.threads || !s.threads[thread].Counting? then s else
      var Counting(id, reason) := s.threads[thread];
      Goto(s, thread, Idle)
        .(counters := Bump(s.counters, id, reason),
          uncounted := if id != NIL && !HasCounter(reason) then s.uncounted + 1 else s.uncounted)
    case Reject =>
      s.(counters := s.counters.(reject := s.counters.reject + 1, error := s.counters.error + 1))
  }

  function Run(s: System, steps: seq<Step>): System {
    if steps == [] then s else Next(Run(s, steps[..|steps| - 1]), steps[|steps| - 1])
  }

  /** Goroutines that removed an id and have not yet counted it. */
  ghost function InFlight(s: System): set<nat> {
    set t | t in s.threads && s.threads[t].Counting? && s.threads[t].id != NIL
  }

  /** Nothing created, every goroutine idle. */
  ghost predicate Unused(s: System, threads: set<nat>) {
    s == System(Maps(map[], map[], map[], map[]), map t | t in threads :: Idle, Counters(0, 0, 0, 0, 0, 0, 0), {},
                multiset{}, 0, 0)
  }

  ghost predicate Inv(s: System) {
    && Consistent(s.maps)
    && s.maps.idToSigs.Keys <= s.issued
    && (forall id :: id in s.cancelled ==> s.cancelled[id] == 1 && id in s.issued && id !in s.maps.idToSigs)
    && s.created == |s.maps.idToSigs| + s.counters.success + s.counters.revert + s.counters.drop
                    + s.uncounted + |InFlight(s)|
    && s.counters.error == s.counters.reject + s.counters.revert + s.counters.drop + s.counters.simRevert
         + s.counters.simOther
    && |s.cancelled| + |s.maps.idToSigs| == s.created
  }

  /** A goroutine that enters or leaves the counting section changes the number in flight by one. */
  lemma InFlightGoto(s: System, s': System, thread: nat, pc: Pc)
    requires thread in s.threads && s'.threads == s.threads[thread := pc]
    ensures var was := thread in InFlight(s);
            var will := pc.Counting? && pc.id != NIL;
            |InFlight(s')| == |InFlight(s)| - (if was then 1 else 0) + (if will then 1 else 0)
  {
    var will := pc.Counting? && pc.id != NIL;
    var others := InFlight(s) - {thread};
    SetCount(InFlight(s), thread);
    SetCount(others, thread);
    if thread !in InFlight(s) {
      assert others == InFlight(s);
    }
    assert InFlight(s') == if will then others + {thread} else others;
  }

  lemma NewKeepsInv(s: System, thread: nat, id: Id, now: int)
    requires Inv(s)
    ensures Inv(Next(s, CommitNew(thread, id, now)))
  {
    if thread in s.threads && s.threads[thread].NewChecked? && id != NIL && id !in s.issued {
      var s' := Next(s, CommitNew(thread, id, now));
      CreatedConsistent(s.maps, s.threads[thread].sig, id, s.threads[thread].cancel, now);
      InFlightGoto(s, s', thread, Idle);
    }
  }

  lemma AddKeepsInv(s: System, thread: nat)
    requires Inv(s)
    ensures Inv(Next(s, CommitAdd(thread)))
  {
    if thread in s.threads && s.threads[thread].AddChecked? {
      var s' := Next(s, CommitAdd(thread));
      AddedConsistent(s.maps, s.threads[thread].id, s.threads[thread].sig);
      InFlightGoto(s, s', thread, Idle);
      assert |s'.maps.idToSigs.Keys| == |s.maps.idToSigs.Keys|;
    }
  }

  lemma RemoveKeepsInv(s: System, thread: nat)
    requires Inv(s)
    ensures Inv(Next(s, CommitRemove(thread)))
  {
    if thread in s.threads && s.threads[thread].RemoveChecked? {
      var s' := Next(s, CommitRemove(thread));
      RemovedConsistent(s.maps, s.threads[thread].sig);
      InFlightGoto(s, s', thread, s'.threads[thread]);
    }
  }

  lemma CountKeepsInv(s: System, thread: nat)
    requires Inv(s)
    ensures Inv(Next(s, Count(thread)))
  {
    if thread in s.threads && s.threads[thread].Counting? {
      InFlightGoto(s, Next(s, Count(thread)), thread, Idle);
    }
  }

  lemma BeginKeepsInv(s: System, step: Step)
    requires Inv(s) && (step.BeginNew? || step.BeginAdd? || step.BeginRemove?)
    ensures Inv(Next(s, step))
  {
    var s' := Next(s, step);
    if s' != s {
      if step.BeginRemove? && step.sig in s.maps.sigToId {
        var id := s.maps.sigToId[step.sig];
        assert Points(s.maps.sigToId, step.sig, id) && Lists(s.maps.idToSigs, id, step.sig);
      }
      InFlightGoto(s, s', step.thread, s'.threads[step.thread]);
    }
  }

  lemma NextKeepsInv(s: System, step: Step)
    requires Inv(s)
    ensures Inv(Next(s, step))
  {
    match step
    case CommitNew(thread, id, now) => NewKeepsInv(s, thread, id, now);
    case CommitAdd(thread) => AddKeepsInv(s, thread);
    case CommitRemove(thread) => RemoveKeepsInv(s, thread);
    case Count(thread) => CountKeepsInv(s, thread);
    case Reject =>
    case _ => BeginKeepsInv(s, step);
  }

  /** Over every interleaving of any goroutines: the maps agree, every cancel function ran at
      most once and only for an id that is no longer pending, and every created transaction is
      pending, counted under one outcome, removed for an uncounted reason, or about to be counted. */
  lemma {:induction false} EveryInterleaving(s: System, threads: set<nat>, steps: seq<Step>)
    requires Unused(s, threads)
    ensures Inv(Run(s, steps))
  {
    if steps == [] {
      assert InFlight(s) == {};
    } else {
      EveryInterleaving(s, threads, steps[..|steps| - 1]);
      NextKeepsInv(Run(s, steps[..|steps| - 1]), steps[|steps| - 1]);
    }
  }

  // ----- Each outcome, from the steps taken

  /** What a goroutine last asked to have removed, and why: its last call that began. */
  ghost function Asked(s: System, steps: seq<Step>, thread: nat): Option<(Sig, Reason)> {
    if steps == [] then None else
    var (front, last) := (steps[..|steps| - 1], steps[|steps| - 1]);
    if last.BeginRemove? && last.thread == thread && At(Run(s, front), thread, Idle)
    then Some((last.sig, last.reason))
    else Asked(s, front, thread)
  }

  /** The step takes the transaction of a pending signature out of the table, as its goroutine was asked to. */
  ghost predicate RemovesFor(s: System, steps: seq<Step>, step: Step, reason: Reason) {
    && step.CommitRemove? && step.thread in Run(s, steps).threads
    && Run(s, steps).threads[step.thread].RemoveChecked?
    && Asked(s, steps, step.thread).Some? && Asked(s, steps, step.thread).value.1 == reason
    && Asked(s, steps, step.thread).value.0 in Run(s, steps).maps.sigToId
  }

  /** How many transactions a run removed for a reason. */
  ghost function RemovedFor(s: System, steps: seq<Step>, reason: Reason): nat {
    if steps == [] then 0 else
    var (front, last) := (steps[..|steps| - 1], steps[|steps| - 1]);
    RemovedFor(s, front, reason) + if RemovesFor(s, front, last, reason) then 1 else 0
  }

  /** How many calls to remove something for a reason a run began. */
  ghost function BegunFor(s: System, steps: seq<Step>, reason: Reason): nat {
    if steps == [] then 0 else
    var (front, last) := (steps[..|steps| - 1], steps[|steps| - 1]);
    BegunFor(s, front, reason)
    + if last.BeginRemove? && last.reason == reason && At(Run(s, front), last.thread, Idle) then 1 else 0
  }

  ghost function Rejections(steps: seq<Step>): nat {
    if steps == [] then 0
    else Rejections(steps[..|steps| - 1]) + if steps[|steps| - 1].Reject? then 1 else 0
  }

  /** The goroutine removed a transaction for this reason and has not yet counted it. */
  predicate IsCounting(pc: Pc, reason: Reason) {
    pc.Counting? && pc.id != NIL && pc.reason == reason
  }

  ghost function AboutToCount(s: System, reason: Reason): set<nat> {
    set t | t in s.threads && IsCounting(s.threads[t], reason)
  }

  /** The goroutine is in a call to remove something for this reason. */
  predicate IsRemoving(pc: Pc, reason: Reason) {
    (pc.RemoveChecked? || pc.Counting?) && pc.reason == reason
  }

  ghost function UnderWay(s: System, reason: Reason): set<nat> {
    set t | t in s.threads && IsRemoving(s.threads[t], reason)
  }

  lemma MembersAfter(before: set<nat>, after: set<nat>, thread: nat)
    requires before - {thread} == after - {thread}
    ensures |after| == |before| - (if thread in before then 1 else 0) + (if thread in after then 1 else 0)
  {
    SetCount(before, thread);
    SetCount(after, thread);
  }

  lemma GotoMoves(s: System, s': System, thread: nat, pc: Pc, reason: Reason)
    requires thread in s.threads && s'.threads == s.threads[thread := pc]
    ensures |AboutToCount(s', reason)|
            == |AboutToCount(s, reason)| - (if IsCounting(s.threads[thread], reason) then 1 else 0)
               + (if IsCounting(pc, reason) then 1 else 0)
    ensures |UnderWay(s', reason)|
            == |UnderWay(s, reason)| - (if IsRemoving(s.threads[thread], reason) then 1 else 0)
               + (if IsRemoving(pc, reason) then 1 else 0)
  {
    assert AboutToCount(s', reason) - {thread} == AboutToCount(s, reason) - {thread};
    assert UnderWay(s', reason) - {thread} == UnderWay(s, reason) - {thread};
    MembersAfter(AboutToCount(s, reason), AboutToCount(s', reason), thread);
    MembersAfter(UnderWay(s, reason), UnderWay(s', reason), thread);
  }

  /** What the metrics say of one outcome. */
  function CountOf(c: Counters, reason: Reason): nat
    requires !reason.Plain?
  {
    match reason
    case Success => c.success
    case Revert => c.revert
    case Drop => c.drop
    case SimRevert => c.simRevert
    case SimOther => c.simOther
  }

  /** The step takes out a transaction, for the reason its goroutine holds. */
  predicate TakesOut(s: System, step: Step, reason: Reason) {
    && step.CommitRemove? && step.thread in s.threads && s.threads[step.thread].RemoveChecked?
    && s.threads[step.thread].reason == reason && s.threads[step.thread].sig in s.maps.sigToId
  }

  /** What is counted, and what is about to be. */
  ghost function Accounted(s: System, reason: Reason): nat
    requires !reason.Plain?
  {
    CountOf(s.counters, reason) + |AboutToCount(s, reason)|
  }

  lemma CommitAccounts(s: System, thread: nat, reason: Reason)
    requires Consistent(s.maps) && HasCounter(reason)
    ensures Accounted(Next(s, CommitRemove(thread)), reason)
            == Accounted(s, reason) + if TakesOut(s, CommitRemove(thread), reason) then 1 else 0
  {
    if thread in s.threads && s.threads[thread].RemoveChecked? {
      var s' := Next(s, CommitRemove(thread));
      RemovedConsistent(s.maps, s.threads[thread].sig);
      GotoMoves(s, s', thread, s'.threads[thread], reason);
    }
  }

  lemma CountAccounts(s: System, thread: nat, reason: Reason)
    requires HasCounter(reason)
    ensures Accounted(Next(s, Count(thread)), reason) == Accounted(s, reason)
  {
    if thread in s.threads && s.threads[thread].Counting? {
      GotoMoves(s, Next(s, Count(thread)), thread, Idle, reason);
    }
  }

  lemma BeginAccounts(s: System, thread: nat, sig: Sig, why: Reason, reason: Reason)
    requires Consistent(s.maps) && HasCounter(reason)
    ensures Accounted(Next(s, BeginRemove(thread, sig, why)), reason) == Accounted(s, reason)
  {
    if At(s, thread, Idle) {
      var s' := Next(s, BeginRemove(thread, sig, why));
      RemovedConsistent(s.maps, sig);
      GotoMoves(s, s', thread, s'.threads[thread], reason);
    }
  }

  lemma OthersAccount(s: System, step: Step, reason: Reason)
    requires HasCounter(reason) && !step.CommitRemove? && !step.Count? && !step.BeginRemove?
    ensures Accounted(Next(s, step), reason) == Accounted(s, reason)
  {
    if !step.Reject? && step.thread in s.threads {
      GotoMoves(s, Next(s, step), step.thread, Next(s, step).threads[step.thread], reason);
    }
  }

  lemma StepAccounts(s: System, step: Step, reason: Reason)
    requires Consistent(s.maps) && HasCounter(reason)
    ensures Accounted(Next(s, step), reason) == Accounted(s, reason) + if TakesOut(s, step, reason) then 1 else 0
  {
    match step
    case CommitRemove(thread) => CommitAccounts(s, thread, reason);
    case Count(thread) => CountAccounts(s, thread, reason);
    case BeginRemove(thread, sig, why) => BeginAccounts(s, thread, sig, why, reason);
    case _ => OthersAccount(s, step, reason);
  }

  lemma StepCountsCalls(s: System, step: Step, reason: Reason)
    requires reason.SimRevert? || reason.SimOther?
    ensures var s' := Next(s, step);
            CountOf(s'.counters, reason) + |UnderWay(s', reason)|
            == CountOf(s.counters, reason) + |UnderWay(s, reason)|
               + if step.BeginRemove? && step.reason == reason && At(s, step.thread, Idle) then 1 else 0
  {
    var s' := Next(s, step);
    if !step.Reject? && step.thread in s.threads {
      GotoMoves(s, s', step.thread, s'.threads[step.thread], reason);
    }
  }

  /** A goroutine that is removing something does what it was asked to. */
  predicate Agrees(pc: Pc, asked: Option<(Sig, Reason)>) {
    pc.RemoveChecked? || pc.Counting? ==>
      asked.Some? && pc.reason == asked.value.1 && (pc.RemoveChecked? ==> pc.sig == asked.value.0)
  }

  lemma StepAgrees(s: System, step: Step, t: nat, asked: Option<(Sig, Reason)>)
    requires t in s.threads && Agrees(s.threads[t], asked)
    ensures t in Next(s, step).threads
    ensures Agrees(Next(s, step).threads[t],
                   if step.BeginRemove? && step.thread == t && At(s, t, Idle) then Some((step.sig, step.reason))
                   else asked)
  {}

  lemma SameThreads(s: System, step: Step)
    ensures Next(s, step).threads.Keys == s.threads.Keys
  {}

  lemma {:induction false} DoesAsAsked(s: System, threads: set<nat>, steps: seq<Step>, t: nat)
    requires Unused(s, threads) && t in Run(s, steps).threads
    ensures Agrees(Run(s, steps).threads[t], Asked(s, steps, t))
  {
    if steps != [] {
      var (front, last) := (steps[..|steps| - 1], steps[|steps| - 1]);
      SameThreads(Run(s, front), last);
      DoesAsAsked(s, threads, front, t);
      StepAgrees(Run(s, front), last, t, Asked(s, front, t));
    }
  }

  /** Over every interleaving, outcome by outcome: the transactions removed as successes are those counted as successes
      and those about to be, and likewise for reverts and drops. */
  lemma {:induction false} EachOutcomeCounted(s: System, threads: set<nat>, steps: seq<Step>, reason: Reason)
    requires Unused(s, threads) && (reason == Success || reason == Revert || reason == Drop)
    ensures CountOf(Run(s, steps).counters, reason) + |AboutToCount(Run(s, steps), reason)|
            == RemovedFor(s, steps, reason)
  {
    if steps == [] {
      assert AboutToCount(s, reason) == {};
    } else {
      var (front, last) := (steps[..|steps| - 1], steps[|steps| - 1]);
      EachOutcomeCounted(s, threads, front, reason);
      EveryInterleaving(s, threads, front);
      StepAccounts(Run(s, front), last, reason);
      if last.CommitRemove? && last.thread in Run(s, front).threads {
        DoesAsAsked(s, threads, front, last.thread);
      }
    }
  }

  /** Simulation errors are counted for every call, whether or not anything was removed. */
  lemma {:induction false} EachCallCounted(s: System, threads: set<nat>, steps: seq<Step>, reason: Reason)
    requires Unused(s, threads) && (reason == SimRevert || reason == SimOther)
    ensures CountOf(Run(s, steps).counters, reason) + |UnderWay(Run(s, steps), reason)| == BegunFor(s, steps, reason)
  {
    if steps == [] {
      assert UnderWay(s, reason) == {};
    } else {
      EachCallCounted(s, threads, steps[..|steps| - 1], reason);
      StepCountsCalls(Run(s, steps[..|steps| - 1]), steps[|steps| - 1], reason);
    }
  }

  lemma StepCountsRejections(s: System, step: Step)
    ensures Next(s, step).counters.reject == s.counters.reject + if step.Reject? then 1 else 0
  {}

  lemma {:induction false} EachRejectionCounted(s: System, threads: set<nat>, steps: seq<Step>)
    requires Unused(s, threads)
    ensures Run(s, steps).counters.reject == Rejections(steps)
  {
    if steps != [] {
      EachRejectionCounted(s, threads, steps[..|steps| - 1]);
      StepCountsRejections(Run(s, steps[..|steps| - 1]), steps[|steps| - 1]);
    }
  }

  /** When no goroutine is in the middle of an operation, the books balance exactly, outcome by outcome. */
  lemma QuiescentBalance(s: System, threads: set<nat>, steps: seq<Step>)
    requires Unused(s, threads)
    requires forall t :: t in Run(s, steps).threads ==> Run(s, steps).threads[t] == Idle
    ensures var (now, counters) := (Run(s, steps), Run(s, steps).counters);
            && now.created == |now.maps.idToSigs| + counters.success + counters.revert + counters.drop + now.uncounted
            && counters.success == RemovedFor(s, steps, Success)
            && counters.revert == RemovedFor(s, steps, Revert)
            && counters.drop == RemovedFor(s, steps, Drop)
            && counters.simRevert == BegunFor(s, steps, SimRevert)
            && counters.simOther == BegunFor(s, steps, SimOther)
            && counters.reject == Rejections(steps)
            && counters.error == counters.reject + counters.revert + counters.drop + counters.simRevert
                                 + counters.simOther
  {
    EveryInterleaving(s, threads, steps);
    var now := Run(s, steps);
    assert InFlight(now) == {};
    forall reason
      ensures |AboutToCount(now, reason)| == 0 && |UnderWay(now, reason)| == 0
    {
      assert AboutToCount(now, reason) == {} && UnderWay(now, reason) == {};
    }
    EachOutcomeCounted(s, threads, steps, Success);
    EachOutcomeCounted(s, threads, steps, Revert);
    EachOutcomeCounted(s, threads, steps, Drop);
    EachCallCounted(s, threads, steps, SimRevert);
    EachCallCounted(s, threads, steps, SimOther);
    EachRejectionCounted(s, threads, steps);
  }

  // ----- What is stored, from the steps taken

  /** The step creates a pending transaction. */
  predicate Creates(s: System, step: Step) {
    && step.CommitNew? && step.thread in s.threads && s.threads[step.thread].NewChecked?
    && step.id != NIL && step.id !in s.issued && s.threads[step.thread].sig !in s.maps.sigToId
  }

  /** The signature and the cancel function a goroutine was last given for a new transaction. */
  ghost function Given(s: System, steps: seq<Step>, thread: nat): Option<(Sig, nat)> {
    if steps == [] then None else
    var (front, last) := (steps[..|steps| - 1], steps[|steps| - 1]);
    if last.BeginNew? && last.thread == thread && At(Run(s, front), thread, Idle)
    then Some((last.sig, last.cancel))
    else Given(s, front, thread)
  }

  /** What the step that created a transaction stored: its first signature, its cancel function and the time. */
  ghost function Creation(s: System, steps: seq<Step>, id: Id): Option<(Sig, nat, int)> {
    if steps == [] then None else
    var (front, last) := (steps[..|steps| - 1], steps[|steps| - 1]);
    if Creates(Run(s, front), last) && last.id == id && Given(s, front, last.thread).Some?
    then Some((Given(s, front, last.thread).value.0, Given(s, front, last.thread).value.1, last.now))
    else Creation(s, front, id)
  }

  ghost function Creations(s: System, steps: seq<Step>): nat {
    if steps == [] then 0 else
    var (front, last) := (steps[..|steps| - 1], steps[|steps| - 1]);
    Creations(s, front) + if Creates(Run(s, front), last) then 1 else 0
  }

  predicate AgreesNew(pc: Pc, given: Option<(Sig, nat)>) {
    pc.NewChecked? ==> given == Some((pc.sig, pc.cancel))
  }

  lemma StepAgreesNew(s: System, step: Step, t: nat, given: Option<(Sig, nat)>)
    requires t in s.threads && AgreesNew(s.threads[t], given)
    ensures t in Next(s, step).threads
    ensures AgreesNew(Next(s, step).threads[t],
                      if step.BeginNew? && step.thread == t && At(s, t, Idle) then Some((step.sig, step.cancel))
                      else given)
  {}

  lemma {:induction false} CreatesAsGiven(s: System, threads: set<nat>, steps: seq<Step>, t: nat)
    requires Unused(s, threads) && t in Run(s, steps).threads
    ensures AgreesNew(Run(s, steps).threads[t], Given(s, steps, t))
  {
    if steps != [] {
      var (front, last) := (steps[..|steps| - 1], steps[|steps| - 1]);
      SameThreads(Run(s, front), last);
      CreatesAsGiven(s, threads, front, t);
      StepAgreesNew(Run(s, front), last, t, Given(s, front, t));
    }
  }

  /** A pending transaction's entries: the cancel function, the time and the first signature given for it. */
  ghost predicate StoredAs(m: Maps, id: Id, creation: Option<(Sig, nat, int)>) {
    && creation.Some? && id in m.cancelBy && id in m.timestamp && id in m.idToSigs && m.idToSigs[id] != []
    && m.idToSigs[id][0] == creation.value.0
    && m.cancelBy[id] == creation.value.1 && m.timestamp[id] == creation.value.2
  }

  lemma RemoveStores(m: Maps, sig: Sig, id: Id, creation: Option<(Sig, nat, int)>)
    requires Consistent(m) && id in Removed(m, sig).idToSigs && (id in m.idToSigs ==> StoredAs(m, id, creation))
    ensures id in m.idToSigs && StoredAs(Removed(m, sig), id, creation)
  {
    RemovedConsistent(m, sig);
  }

  lemma AddStores(m: Maps, other: Id, sig: Sig, id: Id, creation: Option<(Sig, nat, int)>)
    requires Consistent(m) && id in Added(m, other, sig).idToSigs && (id in m.idToSigs ==> StoredAs(m, id, creation))
    ensures id in m.idToSigs && StoredAs(Added(m, other, sig), id, creation)
  {
    AddedConsistent(m, other, sig);
  }

  lemma StepStores(s: System, step: Step, id: Id, creation: Option<(Sig, nat, int)>)
    requires Consistent(s.maps) && id in Next(s, step).maps.idToSigs && !(Creates(s, step) && step.id == id)
    requires id in s.maps.idToSigs ==> StoredAs(s.maps, id, creation)
    ensures id in s.maps.idToSigs && StoredAs(Next(s, step).maps, id, creation)
  {
    match step
    case CommitRemove(thread) =>
      if thread in s.threads && s.threads[thread].RemoveChecked? {
        RemoveStores(s.maps, s.threads[thread].sig, id, creation);
      }
    case CommitAdd(thread) =>
      if thread in s.threads && s.threads[thread].AddChecked? {
        AddStores(s.maps, s.threads[thread].id, s.threads[thread].sig, id, creation);
      }
    case _ =>
  }

  /** Over every interleaving: every pending transaction has the cancel function, the time and the first signature it
      was created with, and the transactions created are those the run created. */
  lemma {:induction false} StoredAsCreated(s: System, threads: set<nat>, steps: seq<Step>)
    requires Unused(s, threads)
    ensures forall id :: id in Run(s, steps).maps.idToSigs ==>
              StoredAs(Run(s, steps).maps, id, Creation(s, steps, id))
    ensures Run(s, steps).created == Creations(s, steps)
  {
    if steps != [] {
      var (front, last) := (steps[..|steps| - 1], steps[|steps| - 1]);
      var (before, now) := (Run(s, front), Run(s, steps));
      StoredAsCreated(s, threads, front);
      EveryInterleaving(s, threads, front);
      if Creates(before, last) {
        CreatesAsGiven(s, threads, front, last.thread);
      }
      forall id | id in now.maps.idToSigs
        ensures StoredAs(now.maps, id, Creation(s, steps, id))
      {
        if !(Creates(before, last) && last.id == id) {
          StepStores(before, last, id, Creation(s, front, id));
        }
      }
    }
  }
}

/** Proposals: when each of their instructions succeeds, and that what is accepted in the end is what was
    written, nominated and named for it, in that order. */
module Ocr2Proposals {
  import opened Bytes
  import opened Collections
  import opened Ocr2Types
  import opened Encodings
  import opened Medians
  import opened Sorting
  import opened Ocr2
  import opened Ocr2Invariants
  import opened Ocr2Authority

  // ----- When the instructions succeed

  /** A proposal the signer owns and may still change. */
  ghost predicate Open(c: Chain, key: Bytes32, authority: Bytes32) {
    key in c.proposals && c.proposals[key].owner == authority && !c.proposals[key].finalized
  }

  /** No two oracles share a signing key or a transmitter. */
  ghost predicate AllDifferent(oracles: seq<NewOracle>) {
    forall i, j :: 0 <= i < j < |oracles| ==>
      oracles[i].signer != oracles[j].signer && oracles[i].transmitter != oracles[j].transmitter
  }

  /** More than 3f oracles, all different, at most 19 of them. */
  ghost predicate Nominable(oracles: seq<NewOracle>, f: byte) {
    1 <= f && 3 * f < |oracles| <= 19 && AllDifferent(oracles)
  }

  ghost predicate ProposalAllowed(c: Chain, key: Bytes32, authority: Bytes32, ix: ProposalIx) {
    match ix
    case CreateProposal(version) => key !in c.proposals && version > 0
    case WriteOffchainConfig(data) => Open(c, key, authority) && |c.proposals[key].offchain.data| + |data| <= 4096
    case FinalizeProposal =>
      && Open(c, key, authority)
      && var p := c.proposals[key];
         p.offchain.version > 0 && |p.offchain.data| > 0 && |p.oracles| > 0
         && forall i :: 0 <= i < |p.oracles| ==> p.oracles[i].payee != Repeat(0, 32)
    case CloseProposal => key in c.proposals && c.proposals[key].owner == authority
    case ProposeConfig(oracles, f) =>
      Open(c, key, authority) && c.proposals[key].offchain.version > 0 && Nominable(oracles, f)
    case ProposePayees(payees, mint) =>
      && Open(c, key, authority) && |payees| == |c.proposals[key].oracles|
      && forall i :: 0 <= i < |payees| ==> payees[i] in c.tokens && c.tokens[payees[i]].mint == mint
  }

  function NewOracleOf(o: ProposedOracle): NewOracle {
    NewOracle(o.signer, o.transmitter)
  }

  function NewOraclesOf(oracles: seq<ProposedOracle>): (r: seq<NewOracle>)
    ensures |r| == |oracles|
  {
    seq(|oracles|, i requires 0 <= i < |oracles| => NewOracleOf(oracles[i]))
  }

  lemma {:induction false} ProposedMultiset(a: seq<ProposedOracle>, b: seq<ProposedOracle>)
    requires multiset(a) == multiset(b)
    ensures multiset(NewOraclesOf(a)) == multiset(NewOraclesOf(b))
    decreases |a|
  {
    SameSize(a, b);
    if a != [] {
      var i := Matching(a, b);
      var n := |a| - 1;
      ProposedMultiset(a[..n], b[..i] + b[i + 1..]);
      assert NewOraclesOf(a) == NewOraclesOf(a[..n]) + [NewOracleOf(a[n])];
      RemoveAt(NewOraclesOf(b), i);
      assert NewOraclesOf(b[..i] + b[i + 1..]) == NewOraclesOf(b)[..i] + NewOraclesOf(b)[i + 1..];
    }
  }

  // ----- Duplicates, before and after sorting

  lemma {:induction false} CountedOnce<T>(s: seq<T>, x: T)
    requires Distinct(s)
    ensures multiset(s)[x] <= 1
  {
    if s != [] {
      var n := |s| - 1;
      CountedOnce(s[..n], x);
      assert s == s[..n] + [s[n]];
      if x == s[n] {
        assert x !in s[..n];
      }
    }
  }

  lemma CountedTwice<T>(s: seq<T>, i: nat, j: nat)
    requires i < j < |s| && s[i] == s[j]
    ensures multiset(s)[s[i]] >= 2
  {
    assert s == s[..j] + [s[j]] + s[j + 1..];
    assert s[..j] == s[..i] + [s[i]] + s[i + 1..j];
  }

  lemma DistinctPermutation<T>(a: seq<T>, b: seq<T>)
    requires multiset(a) == multiset(b)
    ensures Distinct(a) <==> Distinct(b)
  {
    if Distinct(a) && !Distinct(b) {
      var i, j :| 0 <= i < j < |b| && b[i] == b[j];
      CountedTwice(b, i, j);
      CountedOnce(a, b[i]);
    }
    if Distinct(b) && !Distinct(a) {
      var i, j :| 0 <= i < j < |a| && a[i] == a[j];
      CountedTwice(a, i, j);
      CountedOnce(b, a[i]);
    }
  }

  lemma SameNumberSameKey(a: seq<byte>, b: seq<byte>)
    requires |a| == |b|
    ensures FromBE(a) == FromBE(b) <==> a == b
  {
    LessTotal(a, b);
    LessIsNumeric(a, b);
    LessIsNumeric(b, a);
  }

  function TransmitterRank(o: ProposedOracle): int {
    FromBE(o.transmitter)
  }

  ghost predicate DifferentSigners(oracles: seq<ProposedOracle>) {
    forall i, j :: 0 <= i < j < |oracles| ==> oracles[i].signer != oracles[j].signer
  }

  ghost predicate DifferentTransmitters(oracles: seq<ProposedOracle>) {
    forall i, j :: 0 <= i < j < |oracles| ==> oracles[i].transmitter != oracles[j].transmitter
  }

  lemma RanksDistinct(oracles: seq<ProposedOracle>)
    ensures Distinct(Keys(oracles, SignerRank)) <==> DifferentSigners(oracles)
    ensures Distinct(Keys(oracles, TransmitterRank)) <==> DifferentTransmitters(oracles)
  {
    forall i, j | 0 <= i < j < |oracles|
      ensures Keys(oracles, SignerRank)[i] == Keys(oracles, SignerRank)[j] <==> oracles[i].signer == oracles[j].signer
      ensures Keys(oracles, TransmitterRank)[i] == Keys(oracles, TransmitterRank)[j]
              <==> oracles[i].transmitter == oracles[j].transmitter
    {
      SameNumberSameKey(oracles[i].signer, oracles[j].signer);
      SameNumberSameKey(oracles[i].transmitter, oracles[j].transmitter);
    }
  }

  lemma DifferentPermutation(a: seq<ProposedOracle>, b: seq<ProposedOracle>)
    requires multiset(a) == multiset(b)
    ensures DifferentSigners(a) <==> DifferentSigners(b)
    ensures DifferentTransmitters(a) <==> DifferentTransmitters(b)
  {
    RanksDistinct(a);
    RanksDistinct(b);
    KeysPermutation(a, b, SignerRank);
    KeysPermutation(a, b, TransmitterRank);
    DistinctPermutation(Keys(a, SignerRank), Keys(b, SignerRank));
    DistinctPermutation(Keys(a, TransmitterRank), Keys(b, TransmitterRank));
  }

  /** After sorting, comparing neighbours finds every duplicate. */
  lemma NeighboursSuffice(sorted: seq<ProposedOracle>)
    requires AscendingBy(sorted, SignerRank)
    ensures !HasDuplicateSigner(sorted) <==> DifferentSigners(sorted)
  {
    if !HasDuplicateSigner(sorted) {
      SortedSigners(sorted);
      forall i, j | 0 <= i < j < |sorted|
        ensures sorted[i].signer != sorted[j].signer
      {
        assert Less(ProposedSigners(sorted)[i], ProposedSigners(sorted)[j]);
        LessIrreflexive(sorted[i].signer);
      }
    }
  }

  lemma ProposedDifferent(oracles: seq<NewOracle>)
    ensures DifferentSigners(Proposed(oracles)) && DifferentTransmitters(Proposed(oracles)) <==> AllDifferent(oracles)
  {
    var given := Proposed(oracles);
    forall i | 0 <= i < |oracles|
      ensures given[i].signer == oracles[i].signer && given[i].transmitter == oracles[i].transmitter
    {}
  }

  lemma SortedDifferent(given: seq<ProposedOracle>)
    ensures var sorted := SortOracles(given);
            !HasDuplicateSigner(sorted) && !HasDuplicateTransmitter(sorted)
            <==> DifferentSigners(given) && DifferentTransmitters(given)
  {
    DifferentPermutation(given, SortOracles(given));
    NeighboursSuffice(SortOracles(given));
  }

  lemma NominatedExact(p: Proposal, oracles: seq<NewOracle>, f: byte)
    ensures ProposeConfigImpl(p, oracles, f).Ok?
            <==> !p.finalized && p.offchain.version > 0 && Nominable(oracles, f)
  {
    SortedDifferent(Proposed(oracles));
    ProposedDifferent(oracles);
  }

  /** Every instruction on a proposal succeeds exactly when it is allowed, in terms of what it was given. */
  lemma ProposalExact(c: Chain, key: Bytes32, authority: Bytes32, ix: ProposalIx)
    ensures ExecOnProposal(c, key, authority, ix).Ok? <==> ProposalAllowed(c, key, authority, ix)
  {
    match ix
    case ProposeConfig(oracles, f) =>
      if key in c.proposals {
        NominatedExact(c.proposals[key], oracles, f);
      }
    case _ =>
  }

  // ----- What a run wrote for a proposal

  /** What was put into a proposal since it was created: who created it and with which version of the configuration
      format; the configuration bytes, one write after the other; the oracles last nominated and how many of them may be
      faulty; the payees named for these oracles, if any; the mint last named; and whether it is finalized. */
  datatype Draft = Draft(creator: Bytes32, version: u64, written: seq<byte>, nominated: seq<NewOracle>, f: byte,
                         payees: Option<seq<Bytes32>>, mint: Bytes32, finalized: bool)

  /** One more instruction on a proposal; without a draft there is none. */
  function Continued(d: Option<Draft>, authority: Bytes32, action: ProposalIx): Option<Draft> {
    if action.CreateProposal? then Some(Draft(authority, action.configVersion, [], [], 0, None, Repeat(0, 32), false))
    else if action.CloseProposal? || d.None? then None
    else Some(Edited(d.value, action))
  }

  function Edited(d: Draft, action: ProposalIx): Draft {
    match action
    case WriteOffchainConfig(data) => d.(written := d.written + data)
    case ProposeConfig(oracles, f) => d.(nominated := oracles, f := f, payees := None)
    case ProposePayees(payees, mint) => d.(payees := Some(payees), mint := mint)
    case FinalizeProposal => d.(finalized := true)
    case _ => d
  }

  /** The instructions of a run that were on this proposal and succeeded, and no others. */
  ghost function DraftOf(env: Env, c: Chain, ixs: seq<Ix>, key: Bytes32): Option<Draft> {
    if ixs == [] then None else
    var (front, ix) := (ixs[..|ixs| - 1], ixs[|ixs| - 1]);
    var before := DraftOf(env, c, front, key);
    if Exec(env, Run(env, c, front), ix).Err? then before
    else if ix.OnProposal? && ix.proposal == key then Continued(before, ix.authority, ix.proposalIx)
    else if ix.AcceptProposal? && ix.proposal == key then None
    else before
  }

  ghost predicate MadeOf(p: Proposal, d: Draft) {
    && p.owner == d.creator && p.offchain.version == d.version && p.offchain.data == d.written
    && multiset(NewOraclesOf(p.oracles)) == multiset(d.nominated) && p.f == d.f
    && HasPayees(p.oracles, d.payees) && p.tokenMint == d.mint && p.finalized == d.finalized
  }

  /** The proposal there is, if any, is the one drafted. */
  ghost predicate Drafted(proposals: map<Bytes32, Proposal>, key: Bytes32, d: Option<Draft>) {
    (key in proposals <==> d.Some?) && (d.Some? ==> MadeOf(proposals[key], d.value))
  }

  ghost predicate HasPayees(oracles: seq<ProposedOracle>, payees: Option<seq<Bytes32>>) {
    && (payees.Some? ==> |payees.value| == |oracles|)
    && forall i :: 0 <= i < |oracles| ==>
         oracles[i].payee == if payees.Some? then payees.value[i] else Repeat(0, 32)
  }

  lemma SortedNominated(oracles: seq<NewOracle>)
    ensures multiset(NewOraclesOf(SortOracles(Proposed(oracles)))) == multiset(oracles)
    ensures HasPayees(SortOracles(Proposed(oracles)), None)
  {
    var (given, sorted) := (Proposed(oracles), SortOracles(Proposed(oracles)));
    ProposedMultiset(given, sorted);
    assert NewOraclesOf(given) == oracles;
    forall i | 0 <= i < |sorted|
      ensures sorted[i].payee == Repeat(0, 32)
    {
      assert sorted[i] in multiset(given);
    }
  }

  lemma NamedPayees(oracles: seq<ProposedOracle>, payees: seq<Bytes32>)
    requires |oracles| == |payees|
    ensures NewOraclesOf(WithPayees(oracles, payees)) == NewOraclesOf(oracles)
    ensures HasPayees(WithPayees(oracles, payees), Some(payees))
  {}

  lemma NominatedValue(p: Proposal, oracles: seq<NewOracle>, f: byte)
    requires ProposeConfigImpl(p, oracles, f).Ok?
    ensures ProposeConfigImpl(p, oracles, f).value == p.(oracles := SortOracles(Proposed(oracles)), f := f)
  {}

  lemma NominatedMakes(p: Proposal, oracles: seq<NewOracle>, f: byte, d: Draft)
    requires MadeOf(p, d)
    ensures MadeOf(p.(oracles := SortOracles(Proposed(oracles)), f := f), Edited(d, ProposeConfig(oracles, f)))
  {
    SortedNominated(oracles);
  }

  lemma NamedMakes(p: Proposal, payees: seq<Bytes32>, mint: Bytes32, d: Draft)
    requires MadeOf(p, d) && |p.oracles| == |payees|
    ensures MadeOf(p.(oracles := WithPayees(p.oracles, payees), tokenMint := mint),
                   Edited(d, ProposePayees(payees, mint)))
  {
    NamedPayees(p.oracles, payees);
  }

  lemma WrittenMakes(p: Proposal, data: seq<byte>, d: Draft)
    requires MadeOf(p, d) && |p.offchain.data + data| <= MAX_OFFCHAIN_CONFIG
    ensures MadeOf(p.(offchain := p.offchain.(data := p.offchain.data + data)), Edited(d, WriteOffchainConfig(data)))
  {}

  /** One successful instruction on a proposal. */
  lemma ActionMakes(c: Chain, key: Bytes32, authority: Bytes32, action: ProposalIx, d: Option<Draft>)
    requires ExecOnProposal(c, key, authority, action).Ok? && Drafted(c.proposals, key, d)
    ensures Drafted(ExecOnProposal(c, key, authority, action).value.chain.proposals, key,
                    Continued(d, authority, action))
  {
    match action
    case CreateProposal(_) =>
    case WriteOffchainConfig(data) => WrittenMakes(c.proposals[key], data, d.value);
    case ProposeConfig(oracles, f) =>
      NominatedValue(c.proposals[key], oracles, f);
      NominatedMakes(c.proposals[key], oracles, f, d.value);
    case ProposePayees(payees, mint) => NamedMakes(c.proposals[key], payees, mint, d.value);
    case _ =>
  }

  /** No other instruction changes a proposal, except that accepting it closes it. */
  lemma OthersLeave(env: Env, c: Chain, ix: Ix, key: Bytes32)
    requires Exec(env, c, ix).Ok? && !(ix.OnProposal? && ix.proposal == key)
    ensures var c' := Exec(env, c, ix).value.chain;
            if ix.AcceptProposal? && ix.proposal == key then key !in c'.proposals
            else (key in c'.proposals <==> key in c.proposals)
                 && (key in c.proposals ==> c'.proposals[key] == c.proposals[key])
  {
    match ix
    case OnProposal(other, authority, action) =>
      ProposalFrame(c, other, authority, action);
      OtherKeys(c.proposals, Exec(env, c, ix).value.chain.proposals, other, key);
    case AcceptProposal(other, authority, digest, payees, receiver, slot) =>
      AcceptFrame(env, c, other, authority, digest, payees, receiver, slot);
    case Transmit(_, _, _, _) =>
    case _ => OtherFrame(env, c, ix);
  }

  lemma OtherKeys(before: map<Bytes32, Proposal>, after: map<Bytes32, Proposal>, other: Bytes32, key: Bytes32)
    requires after - {other} == before - {other} && key != other
    ensures key in after <==> key in before
    ensures key in before ==> after[key] == before[key]
  {
    assert key in after <==> key in after - {other};
    assert key in before <==> key in before - {other};
    assert key in before ==> (after - {other})[key] == after[key] && (before - {other})[key] == before[key];
  }

  /** Over every run: there is a proposal exactly when it was created and neither closed nor accepted since, and it
      holds what was written, nominated and named for it, by instructions that succeeded, whatever else happened. */
  lemma {:induction false} EveryProposalIsMade(env: Env, c: Chain, ixs: seq<Ix>, key: Bytes32)
    requires Initial(c)
    ensures Drafted(Run(env, c, ixs).proposals, key, DraftOf(env, c, ixs, key))
  {
    if ixs != [] {
      var (front, ix) := (ixs[..|ixs| - 1], ixs[|ixs| - 1]);
      EveryProposalIsMade(env, c, front, key);
      var before := Run(env, c, front);
      if Exec(env, before, ix).Ok? {
        if ix.OnProposal? && ix.proposal == key {
          ActionMakes(before, key, ix.authority, ix.proposalIx, DraftOf(env, c, front, key));
        } else {
          OthersLeave(env, before, ix, key);
        }
      }
    }
  }

  // ----- What acceptance installs

  /** `accept_proposal` succeeds exactly when the owner signs it, paying out does, and a finalized proposal of the
      aggregator's mint has the digest given. Then the new configuration is the proposal's, with its own digest,
      every oracle starts from the latest round with nothing owed, and the proposal is gone. */
  lemma AcceptExact(env: Env, c: Chain, ix: Ix)
    requires Inv(c) && ix.AcceptProposal?
    ensures var (r, paid, key) := (Exec(env, c, ix), PayOraclesImpl(c, ix.payees, ix.receiver), ix.proposal);
            && (r.Ok? <==>
                  && key in c.proposals && ix.authority == c.config.owner && paid.Ok?
                  && c.proposals[key].finalized && c.proposals[key].tokenMint == c.config.tokenMint
                  && ix.digest == env.hash(ProposalPreimage(c.proposals[key]))
                  && c.config.configCount < 0xFFFF_FFFF)
            && (r.Ok? ==>
                  && r.value.payments == paid.value.payments
                  && Installed(env, paid.value.chain, r.value.chain, c.proposals[key], ix.slot)
                  && r.value.chain.proposals == c.proposals - {key})
  {
    AcceptSucceeds(env, c, ix);
    if Exec(env, c, ix).Ok? {
      AcceptInstalls(env, c, ix);
    }
  }

  lemma AcceptSucceeds(env: Env, c: Chain, ix: Ix)
    requires Inv(c) && ix.AcceptProposal?
    ensures var (paid, key) := (PayOraclesImpl(c, ix.payees, ix.receiver), ix.proposal);
            Exec(env, c, ix).Ok? <==>
              && key in c.proposals && ix.authority == c.config.owner && paid.Ok?
              && c.proposals[key].finalized && c.proposals[key].tokenMint == c.config.tokenMint
              && ix.digest == env.hash(ProposalPreimage(c.proposals[key]))
              && c.config.configCount < 0xFFFF_FFFF
  {
    if ix.proposal in c.proposals && PayOraclesImpl(c, ix.payees, ix.receiver).Ok? {
      PayFrame(c, ix.payees, ix.receiver);
      assert ProposalOk(c.proposals[ix.proposal]);
    }
  }

  lemma AcceptInstalls(env: Env, c: Chain, ix: Ix)
    requires ix.AcceptProposal? && Exec(env, c, ix).Ok?
    ensures var (effect, paid) := (Exec(env, c, ix).value, PayOraclesImpl(c, ix.payees, ix.receiver).value);
            && effect.payments == paid.payments && ix.proposal in c.proposals
            && Installed(env, paid.chain, effect.chain, c.proposals[ix.proposal], ix.slot)
            && effect.chain.proposals == c.proposals - {ix.proposal}
  {
    InstallExact(env, PayOraclesImpl(c, ix.payees, ix.receiver).value.chain, c.proposals[ix.proposal], ix.slot);
  }

  /** The configuration after a proposal is installed. */
  ghost predicate Installed(env: Env, c: Chain, c': Chain, p: Proposal, slot: nat) {
    && c.config.configCount < 0xFFFF_FFFF
    && c' == c.(config := c.config.(f := p.f, configSlot := slot, configCount := c.config.configCount + 1,
                                    configDigest := c'.config.configDigest),
                offchain := p.offchain, oracles := c'.oracles, proposals := c'.proposals)
    && DigestOf(env, c'.config.configDigest, Committed(env, c'))
    && |c'.oracles| == |p.oracles|
    && forall i :: 0 <= i < |p.oracles| ==>
         var (o, n) := (p.oracles[i], c'.oracles[i]);
         && n.transmitter == o.transmitter && n.signer == o.signer && n.payee == o.payee
         && n.proposedPayee == Repeat(0, 32) && n.fromRoundId == c.config.latestRoundId && n.payment == 0
  }

  lemma InstallExact(env: Env, c: Chain, p: Proposal, slot: nat)
    requires Install(env, c, p, slot).Ok?
    ensures forall proposals :: Installed(env, c, Install(env, c, p, slot).value.(proposals := proposals), p, slot)
  {
    InstallCommits(env, c, p, slot);
    var c' := Install(env, c, p, slot).value;
    forall proposals
      ensures Installed(env, c, c'.(proposals := proposals), p, slot)
    {
      assert Committed(env, c'.(proposals := proposals)) == Committed(env, c');
    }
  }
}

/** The two digests: what the program hashes, what the node and the deployment
    tooling hash, and why a digest pins down what was hashed. */
module Encodings {
  import opened Bytes
  import opened Ocr2Types

  // ----- Proposal digest

  function OracleBytes(o: ProposedOracle): (r: seq<byte>)
    ensures |r| == 84
  {
    o.signer + o.transmitter + o.payee
  }

  function OraclesBytes(oracles: seq<ProposedOracle>): (r: seq<byte>)
    ensures |r| == 84 * |oracles|
  {
    if oracles == [] then [] else OraclesBytes(oracles[..|oracles| - 1]) + OracleBytes(oracles[|oracles| - 1])
  }

  /** Length-prefixed and versioned configuration bytes. */
  function OffchainBytes(offchain: OffchainConfig): seq<byte> {
    ToBE(offchain.version, 8) + (ToBE(|offchain.data|, 4) + offchain.data)
  }

  /** The fields a proposal digest commits to. */
  function ProposalPreimage(p: Proposal): seq<byte> {
    [|p.oracles| % 256] + (OraclesBytes(p.oracles) + ProposalTail(p))
  }

  function ProposalTail(p: Proposal): seq<byte> {
    [p.f] + (p.tokenMint + OffchainBytes(p.offchain))
  }

  predicate ProposalSized(p: Proposal) {
    |p.oracles| <= MAX_ORACLES
  }

  function Concat(parts: seq<seq<byte>>): seq<byte> {
    if parts == [] then [] else Concat(parts[..|parts| - 1]) + parts[|parts| - 1]
  }

  lemma ConcatSnoc(parts: seq<seq<byte>>, part: seq<byte>)
    ensures Concat(parts + [part]) == Concat(parts) + part
  {
    assert (parts + [part])[..|parts|] == parts;
  }

  /** `Proposal::digest`: the slices handed to `hashv`, joined. */
  method ProposalDigestInput(p: Proposal) returns (input: seq<byte>)
    requires ProposalSized(p)
    ensures input == ProposalPreimage(p)
  {
    var data: seq<seq<byte>> := [[|p.oracles| % 256]];
    assert Concat(data) == [|p.oracles| % 256] + OraclesBytes([]) by {
      ConcatSnoc([], [|p.oracles| % 256]);
    }
    for i := 0 to |p.oracles|
      invariant Concat(data) == [|p.oracles| % 256] + OraclesBytes(p.oracles[..i])
    {
      var oracle := p.oracles[i];
      ConcatSnoc(data, oracle.signer);
      data := data + [oracle.signer];
      ConcatSnoc(data, oracle.transmitter);
      data := data + [oracle.transmitter];
      ConcatSnoc(data, oracle.payee);
      data := data + [oracle.payee];
      assert p.oracles[..i + 1][..i] == p.oracles[..i];
    }
    assert p.oracles[..|p.oracles|] == p.oracles;
    ghost var prefix := Concat(data);
    ConcatSnoc(data, [p.f]);
    data := data + [[p.f]];
    ConcatSnoc(data, p.tokenMint);
    data := data + [p.tokenMint];
    var version := ToBE(p.offchain.version, 8);
    ConcatSnoc(data, version);
    data := data + [version];
    var length := ToBE(|p.offchain.data|, 4);
    ConcatSnoc(data, length);
    data := data + [length];
    ConcatSnoc(data, p.offchain.data);
    data := data + [p.offchain.data];
    input := Concat(data);
    Reassociate([|p.oracles| % 256], OraclesBytes(p.oracles), [p.f], p.tokenMint, version, length, p.offchain.data);
  }

  lemma Reassociate(a: seq<byte>, b: seq<byte>, c: seq<byte>, d: seq<byte>, e: seq<byte>, f: seq<byte>, g: seq<byte>)
    ensures a + b + c + d + e + f + g == a + (b + (c + (d + (e + (f + g)))))
  {
    assert a + b + c + d + e + f + g == a + b + c + d + (e + (f + g));
    assert a + b + c + d + (e + (f + g)) == a + b + (c + (d + (e + (f + g))));
  }

  lemma Reassociate4(a: seq<byte>, b: seq<byte>, c: seq<byte>, d: seq<byte>)
    ensures a + b + c + d == a + (b + (c + d))
  {}

  /** `makeDigest` of the deployment client: the bytes written to its hasher. */
  method MakeDigestInput(p: Proposal) returns (written: seq<byte>)
    requires ProposalSized(p)
    ensures written == ProposalPreimage(p)
  {
    written := [|p.oracles| % 256];
    for i := 0 to |p.oracles|
      invariant written == [|p.oracles| % 256] + OraclesBytes(p.oracles[..i])
    {
      var oracle := p.oracles[i];
      written := written + oracle.signer;
      written := written + oracle.transmitter;
      written := written + oracle.payee;
      assert p.oracles[..i + 1][..i] == p.oracles[..i];
    }
    assert p.oracles[..|p.oracles|] == p.oracles;
    written := written + [p.f];
    written := written + p.tokenMint;
    var header := ToBE(p.offchain.version, 8) + ToBE(|p.offchain.data|, 4);
    written := written + header;
    written := written + p.offchain.data;
    Reassociate([|p.oracles| % 256], OraclesBytes(p.oracles), [p.f], p.tokenMint,
                ToBE(p.offchain.version, 8), ToBE(|p.offchain.data|, 4), p.offchain.data);
  }

  lemma {:induction false} OraclesBytesInjective(a: seq<ProposedOracle>, b: seq<ProposedOracle>)
    requires |a| == |b| && OraclesBytes(a) == OraclesBytes(b)
    ensures a == b
  {
    if a != [] {
      var (x, y, n) := (a[|a| - 1], b[|b| - 1], |a| - 1);
      SplitEqual(OraclesBytes(a[..n]), OracleBytes(x), OraclesBytes(b[..n]), OracleBytes(y));
      SplitEqual(x.signer + x.transmitter, x.payee, y.signer + y.transmitter, y.payee);
      SplitEqual(x.signer, x.transmitter, y.signer, y.transmitter);
      OraclesBytesInjective(a[..n], b[..n]);
      assert a == a[..n] + [x] && b == b[..n] + [y];
    }
  }

  lemma OffchainBytesInjective(a: OffchainConfig, b: OffchainConfig)
    requires OffchainBytes(a) == OffchainBytes(b)
    ensures a == b
  {
    PowValues();
    SplitEqual(ToBE(a.version, 8), ToBE(|a.data|, 4) + a.data, ToBE(b.version, 8), ToBE(|b.data|, 4) + b.data);
    BigEndianInjective(a.version, b.version, 8);
    SplitEqual(ToBE(|a.data|, 4), a.data, ToBE(|b.data|, 4), b.data);
  }

  /** Two proposals with the same preimage agree on everything that is accepted
      from them: oracles with payees, f, mint, config version and config bytes. */
  lemma ProposalPreimageInjective(p: Proposal, q: Proposal)
    requires ProposalSized(p) && ProposalSized(q)
    requires ProposalPreimage(p) == ProposalPreimage(q)
    ensures p.oracles == q.oracles && p.f == q.f && p.tokenMint == q.tokenMint && p.offchain == q.offchain
  {
    var (pTail, qTail) := (ProposalTail(p), ProposalTail(q));
    SplitEqual([|p.oracles| % 256], OraclesBytes(p.oracles) + pTail, [|q.oracles| % 256],
               OraclesBytes(q.oracles) + qTail);
    assert [|p.oracles| % 256][0] == [|q.oracles| % 256][0];
    SplitEqual(OraclesBytes(p.oracles), pTail, OraclesBytes(q.oracles), qTail);
    OraclesBytesInjective(p.oracles, q.oracles);
    ProposalTailInjective(p, q);
  }

  lemma ProposalTailInjective(p: Proposal, q: Proposal)
    requires ProposalTail(p) == ProposalTail(q)
    ensures p.f == q.f && p.tokenMint == q.tokenMint && p.offchain == q.offchain
  {
    SplitEqual([p.f], p.tokenMint + OffchainBytes(p.offchain), [q.f], q.tokenMint + OffchainBytes(q.offchain));
    assert [p.f][0] == [q.f][0];
    SplitEqual(p.tokenMint, OffchainBytes(p.offchain), q.tokenMint, OffchainBytes(q.offchain));
    OffchainBytesInjective(p.offchain, q.offchain);
  }

  // ----- Config digest

  /** What a config digest commits to. */
  datatype ConfigData = ConfigData(
    programId: Bytes32, stateId: Bytes32, configCount: u32,
    signers: seq<Address>, transmitters: seq<Bytes32>, f: byte,
    minAnswer: i128, maxAnswer: i128, offchain: OffchainConfig)

  const ONCHAIN_CONFIG_VERSION: byte := 1

  predicate ConfigSized(c: ConfigData) {
    |c.signers| == |c.transmitters| <= MAX_ORACLES
  }

  lemma AnswerWidths(x: i128)
    ensures FitsSigned(x, 16) && FitsSigned(x, 24)
  {
    PowValues();
    SignExtension(x, 8, 16);
  }

  /** The plugin's onchain configuration: both bounds as 192-bit two's complement. */
  function OnchainBytes(minAnswer: i128, maxAnswer: i128): (r: seq<byte>)
    ensures |r| == 49
  {
    AnswerWidths(minAnswer);
    AnswerWidths(maxAnswer);
    [ONCHAIN_CONFIG_VERSION] + ToSignedBE(minAnswer, 24) + ToSignedBE(maxAnswer, 24)
  }

  function ConfigPreimage(c: ConfigData): seq<byte>
    requires ConfigSized(c)
  {
    ConfigHead(c) + (Concat(c.signers) + (Concat(c.transmitters) + ConfigTail(c)))
  }

  function ConfigHead(c: ConfigData): (r: seq<byte>)
    ensures |r| == 69
  {
    c.programId + (c.stateId + (ToBE(c.configCount, 4) + [|c.signers| % 256]))
  }

  function ConfigTail(c: ConfigData): seq<byte>
    requires ConfigSized(c)
  {
    [c.f] + (ToBE(49, 4) + (OnchainBytes(c.minAnswer, c.maxAnswer) + OffchainBytes(c.offchain)))
  }

  /** The committed data, read off the aggregator account. */
  function DataOf(programId: Bytes32, stateId: Bytes32, config: Config, offchain: OffchainConfig,
                  oracles: seq<Oracle>): ConfigData {
    ConfigData(programId, stateId, config.configCount, Signers(oracles), Transmitters(oracles), config.f,
               config.minAnswer, config.maxAnswer, offchain)
  }

  /** Push one slice per key. */
  method PushKeys(parts: seq<seq<byte>>, keys: seq<seq<byte>>) returns (data: seq<seq<byte>>)
    ensures Concat(data) == Concat(parts) + Concat(keys)
  {
    data := parts;
    for i := 0 to |keys|
      invariant data == parts + keys[..i]
    {
      data := data + [keys[i]];
    }
    assert data == parts + keys;
    ConcatAppend(parts, keys);
  }

  lemma {:induction false} ConcatAppend(parts: seq<seq<byte>>, keys: seq<seq<byte>>)
    ensures Concat(parts + keys) == Concat(parts) + Concat(keys)
  {
    if keys == [] {
      assert parts + keys == parts;
    } else {
      var (front, last) := (keys[..|keys| - 1], keys[|keys| - 1]);
      ConcatAppend(parts, front);
      assert (parts + keys)[..|parts + keys| - 1] == parts + front;
    }
  }

  /** Push a bound, sign-extended from 128 to 192 bits. */
  method PushAnswer(bytes: seq<byte>, answer: i128) returns (r: seq<byte>)
    ensures FitsSigned(answer, 24) && r == bytes + ToSignedBE(answer, 24)
  {
    AnswerWidths(answer);
    if answer < 0 {
      r := bytes + Repeat(0xFF, 8);
    } else {
      r := bytes + Repeat(0x00, 8);
    }
    var low := ToSignedBE(answer, 16);
    r := r + low;
    assert r == bytes + (Repeat(if answer < 0 then 0xFF else 0x00, 8) + low);
    SignExtension(answer, 8, 16);
  }

  /** `config_digest_from_data`: the slices handed to `hashv`, joined. */
  method ConfigDigestInput(programId: Bytes32, stateId: Bytes32, config: Config, offchain: OffchainConfig,
                           oracles: seq<Oracle>) returns (input: seq<byte>)
    requires ConfigSized(DataOf(programId, stateId, config, offchain, oracles))
    ensures input == ConfigPreimage(DataOf(programId, stateId, config, offchain, oracles))
  {
    ghost var c := DataOf(programId, stateId, config, offchain, oracles);
    var onchain := PushAnswer([ONCHAIN_CONFIG_VERSION], config.minAnswer);
    onchain := PushAnswer(onchain, config.maxAnswer);

    var data := PushKeys([], [programId, stateId, ToBE(config.configCount, 4), [|oracles| % 256]]);
    HeadParts(c);
    assert Concat(data) == ConfigHead(c);
    data := PushKeys(data, Signers(oracles));
    data := PushKeys(data, Transmitters(oracles));
    input := PushTail(data, config.f, onchain, offchain);
    assert input == ConfigHead(c) + Concat(c.signers) + Concat(c.transmitters) + ConfigTail(c);
    Reassociate4(ConfigHead(c), Concat(c.signers), Concat(c.transmitters), ConfigTail(c));
  }

  lemma HeadParts(c: ConfigData)
    ensures Concat([c.programId, c.stateId, ToBE(c.configCount, 4), [|c.signers| % 256]]) == ConfigHead(c)
  {
    var (count, n) := (ToBE(c.configCount, 4), [|c.signers| % 256]);
    assert [c.programId, c.stateId, count, n] == [c.programId, c.stateId, count] + [n];
    assert [c.programId, c.stateId, count] == [c.programId, c.stateId] + [count];
    assert [c.programId, c.stateId] == [c.programId] + [c.stateId];
    assert [c.programId] == [] + [c.programId];
    ConcatSnoc([c.programId, c.stateId, count], n);
    ConcatSnoc([c.programId, c.stateId], count);
    ConcatSnoc([c.programId], c.stateId);
    ConcatSnoc([], c.programId);
  }

  method PushTail(parts: seq<seq<byte>>, f: byte, onchain: seq<byte>, offchain: OffchainConfig)
    returns (input: seq<byte>)
    ensures input == Concat(parts) + ([f] + (ToBE(|onchain|, 4) + (onchain + OffchainBytes(offchain))))
  {
    var data := parts + [[f]];
    ConcatSnoc(parts, [f]);
    var onchainLength := ToBE(|onchain|, 4);
    ConcatSnoc(data, onchainLength);
    data := data + [onchainLength];
    ConcatSnoc(data, onchain);
    data := data + [onchain];
    var version := ToBE(offchain.version, 8);
    ConcatSnoc(data, version);
    data := data + [version];
    var offchainLength := ToBE(|offchain.data|, 4);
    ConcatSnoc(data, offchainLength);
    data := data + [offchainLength];
    ConcatSnoc(data, offchain.data);
    input := Concat(data + [offchain.data]);
    Reassociate(Concat(parts), [f], onchainLength, onchain, version, offchainLength, offchain.data);
  }

  // ----- The node's side

  /** The account as the node decodes it: fixed arrays with a separate length. */
  datatype AccountState = AccountState(
    config: Config, oracles: seq<Oracle>, oraclesLen: nat, offchainVersion: u64, offchainRaw: seq<byte>,
        offchainLen: nat)
  {
    predicate WellShaped() {
      |oracles| == MAX_ORACLES && |offchainRaw| == MAX_OFFCHAIN_CONFIG
    }

    /** `Oracles.Data`. */
    function OraclesData(): Result<seq<Oracle>>
      requires WellShaped()
    {
      if oraclesLen > MAX_ORACLES then Err(InvalidInput) else Ok(oracles[..oraclesLen])
    }

    /** `OffchainConfig.Data`. */
    function OffchainData(): Result<seq<byte>>
      requires WellShaped()
    {
      if offchainLen > MAX_OFFCHAIN_CONFIG then Err(InvalidInput) else Ok(offchainRaw[..offchainLen])
    }
  }

  datatype ContractConfig = ContractConfig(
    configCount: u32, signers: seq<Address>, transmitters: seq<Bytes32>, f: byte,
    onchain: seq<byte>, offchain: OffchainConfig)

  /** `ConfigFromState`. */
  method ConfigFromState(state: AccountState) returns (r: Result<ContractConfig>)
    requires state.WellShaped()
    ensures r.Ok? <==> state.oraclesLen <= MAX_ORACLES && state.offchainLen <= MAX_OFFCHAIN_CONFIG
    ensures r.Ok? ==>
              r.value == ContractConfig(
                state.config.configCount,
                Signers(state.oracles[..state.oraclesLen]), Transmitters(state.oracles[..state.oraclesLen]),
                state.config.f, OnchainBytes(state.config.minAnswer, state.config.maxAnswer),
                OffchainConfig(state.offchainVersion, state.offchainRaw[..state.offchainLen]))
  {
    var oracles :- state.OraclesData();
    var pubKeys: seq<Address>, accounts: seq<Bytes32> := [], [];
    for i := 0 to |oracles|
      invariant pubKeys == Signers(oracles)[..i] && accounts == Transmitters(oracles)[..i]
    {
      pubKeys := pubKeys + [oracles[i].signer];
      accounts := accounts + [oracles[i].transmitter];
    }
    AnswerWidths(state.config.minAnswer);
    AnswerWidths(state.config.maxAnswer);
    var onchain := [ONCHAIN_CONFIG_VERSION] + ToSignedBE(state.config.minAnswer, 24)
        + ToSignedBE(state.config.maxAnswer, 24);
    var offchain :- state.OffchainData();
    return Ok(ContractConfig(state.config.configCount, pubKeys, accounts, state.config.f, onchain,
                             OffchainConfig(state.offchainVersion, offchain)));
  }

  /** Write every key to the hasher. */
  method WriteKeys(before: seq<byte>, keys: seq<seq<byte>>) returns (written: seq<byte>)
    ensures written == before + Concat(keys)
  {
    written := before;
    for i := 0 to |keys|
      invariant written == before + Concat(keys[..i])
    {
      written := written + keys[i];
      ConcatSnoc(keys[..i], keys[i]);
      assert keys[..i + 1] == keys[..i] + [keys[i]];
    }
    assert keys[..|keys|] == keys;
  }

  /** `OffchainConfigDigester.ConfigDigest`: the bytes written to the hasher. */
  method ConfigDigestWritten(programId: Bytes32, stateId: Bytes32, cfg: ContractConfig) returns (written: seq<byte>)
    ensures written == programId + (stateId + (ToBE(cfg.configCount, 4) + [|cfg.signers| % 256]))
                       + (Concat(cfg.signers) + (Concat(cfg.transmitters)
                       + ([cfg.f] + (ToBE(|cfg.onchain|, 4) + (cfg.onchain + OffchainBytes(cfg.offchain))))))
  {
    written := programId;
    written := written + stateId;
    written := written + ToBE(cfg.configCount, 4);
    written := written + [|cfg.signers| % 256];
    ghost var head := programId + (stateId + (ToBE(cfg.configCount, 4) + [|cfg.signers| % 256]));
    assert written == head;
    written := WriteKeys(written, cfg.signers);
    written := WriteKeys(written, cfg.transmitters);
    written := WriteTail(written, cfg);
    ghost var tail := [cfg.f] + (ToBE(|cfg.onchain|, 4) + (cfg.onchain + OffchainBytes(cfg.offchain)));
    Reassociate4(head, Concat(cfg.signers), Concat(cfg.transmitters), tail);
  }

  method WriteTail(before: seq<byte>, cfg: ContractConfig) returns (written: seq<byte>)
    ensures written == before + ([cfg.f] + (ToBE(|cfg.onchain|, 4) + (cfg.onchain + OffchainBytes(cfg.offchain))))
  {
    written := before + [cfg.f];
    written := written + ToBE(|cfg.onchain|, 4);
    written := written + cfg.onchain;
    written := written + ToBE(cfg.offchain.version, 8);
    written := written + ToBE(|cfg.offchain.data|, 4);
    written := written + cfg.offchain.data;
    Reassociate(before, [cfg.f], ToBE(|cfg.onchain|, 4), cfg.onchain,
                ToBE(cfg.offchain.version, 8), ToBE(|cfg.offchain.data|, 4), cfg.offchain.data);
  }

  /** For every account the node can decode, the node and the program hash the same bytes. */
  method NodeMatchesProgram(programId: Bytes32, stateId: Bytes32, state: AccountState) returns (node: Result<seq<byte>>)
    requires state.WellShaped()
    ensures node.Ok? <==> state.oraclesLen <= MAX_ORACLES && state.offchainLen <= MAX_OFFCHAIN_CONFIG
    ensures node.Ok? ==>
              node.value == ConfigPreimage(DataOf(programId, stateId, state.config,
                OffchainConfig(state.offchainVersion, state.offchainRaw[..state.offchainLen]),
                state.oracles[..state.oraclesLen]))
  {
    var cfg :- ConfigFromState(state);
    var written := ConfigDigestWritten(programId, stateId, cfg);
    return Ok(written);
  }

  // ----- The config digest pins the configuration

  lemma {:induction false} ConcatInjective(a: seq<seq<byte>>, b: seq<seq<byte>>, width: nat)
    requires |a| == |b| && Concat(a) == Concat(b)
    requires forall i :: 0 <= i < |a| ==> |a[i]| == width && |b[i]| == width
    ensures a == b
  {
    if a != [] {
      var n := |a| - 1;
      ConcatLength(a[..n], width);
      ConcatLength(b[..n], width);
      SplitEqual(Concat(a[..n]), a[n], Concat(b[..n]), b[n]);
      ConcatInjective(a[..n], b[..n], width);
      assert a == a[..n] + [a[n]] && b == b[..n] + [b[n]];
    }
  }

  lemma {:induction false} ConcatLength(a: seq<seq<byte>>, width: nat)
    requires forall i :: 0 <= i < |a| ==> |a[i]| == width
    ensures |Concat(a)| == |a| * width
  {
    if a != [] {
      ConcatLength(a[..|a| - 1], width);
      Distribute(width, |a|, 1);
    }
  }

  lemma OnchainBytesInjective(min1: i128, max1: i128, min2: i128, max2: i128)
    requires OnchainBytes(min1, max1) == OnchainBytes(min2, max2)
    ensures min1 == min2 && max1 == max2
  {
    AnswerWidths(min1);
    AnswerWidths(max1);
    AnswerWidths(min2);
    AnswerWidths(max2);
    var v := [ONCHAIN_CONFIG_VERSION];
    SplitEqual(v + ToSignedBE(min1, 24), ToSignedBE(max1, 24), v + ToSignedBE(min2, 24), ToSignedBE(max2, 24));
    SplitEqual(v, ToSignedBE(min1, 24), v, ToSignedBE(min2, 24));
    SignedInjective(min1, min2, 24);
    SignedInjective(max1, max2, 24);
  }

  lemma ConfigHeadInjective(a: ConfigData, b: ConfigData)
    requires ConfigSized(a) && ConfigSized(b) && ConfigHead(a) == ConfigHead(b)
    ensures a.programId == b.programId && a.stateId == b.stateId && a.configCount == b.configCount
    ensures |a.signers| == |b.signers|
  {
    PowValues();
    var (countA, countB) := (ToBE(a.configCount, 4), ToBE(b.configCount, 4));
    var (na, nb) := ([|a.signers| % 256], [|b.signers| % 256]);
    SplitEqual(a.programId, a.stateId + (countA + na), b.programId, b.stateId + (countB + nb));
    SplitEqual(a.stateId, countA + na, b.stateId, countB + nb);
    SplitEqual(countA, na, countB, nb);
    BigEndianInjective(a.configCount, b.configCount, 4);
    assert na[0] == nb[0];
  }

  lemma ConfigTailInjective(a: ConfigData, b: ConfigData)
    requires ConfigSized(a) && ConfigSized(b) && ConfigTail(a) == ConfigTail(b)
    ensures a.f == b.f && a.minAnswer == b.minAnswer && a.maxAnswer == b.maxAnswer && a.offchain == b.offchain
  {
    var (onA, onB) := (OnchainBytes(a.minAnswer, a.maxAnswer), OnchainBytes(b.minAnswer, b.maxAnswer));
    var (offA, offB) := (OffchainBytes(a.offchain), OffchainBytes(b.offchain));
    SplitEqual([a.f], ToBE(49, 4) + (onA + offA), [b.f], ToBE(49, 4) + (onB + offB));
    assert [a.f][0] == [b.f][0];
    SplitEqual(ToBE(49, 4), onA + offA, ToBE(49, 4), onB + offB);
    SplitEqual(onA, offA, onB, offB);
    OnchainBytesInjective(a.minAnswer, a.maxAnswer, b.minAnswer, b.maxAnswer);
    OffchainBytesInjective(a.offchain, b.offchain);
  }

  lemma ConfigPreimageInjective(a: ConfigData, b: ConfigData)
    requires ConfigSized(a) && ConfigSized(b) && ConfigPreimage(a) == ConfigPreimage(b)
    ensures a == b
  {
    var (restA, restB) := (Concat(a.transmitters) + ConfigTail(a), Concat(b.transmitters) + ConfigTail(b));
    SplitEqual(ConfigHead(a), Concat(a.signers) + restA, ConfigHead(b), Concat(b.signers) + restB);
    ConfigHeadInjective(a, b);
    ConcatLength(a.signers, 20);
    ConcatLength(b.signers, 20);
    SplitEqual(Concat(a.signers), restA, Concat(b.signers), restB);
    ConcatInjective(a.signers, b.signers, 20);
    ConcatLength(a.transmitters, 32);
    ConcatLength(b.transmitters, 32);
    SplitEqual(Concat(a.transmitters), ConfigTail(a), Concat(b.transmitters), ConfigTail(b));
    ConcatInjective(a.transmitters, b.transmitters, 32);
    ConfigTailInjective(a, b);
  }

  // ----- Where the fields are

  lemma Within(a: seq<byte>, b: seq<byte>, from: nat, to: nat)
    requires from <= to <= |b|
    ensures (a + b)[|a| + from..|a| + to] == b[from..to]
  {}

  lemma Before(a: seq<byte>, b: seq<byte>, from: nat, to: nat)
    requires from <= to <= |a|
    ensures (a + b)[from..to] == a[from..to]
  {}

  lemma {:induction false} OracleAt(oracles: seq<ProposedOracle>, k: nat)
    requires k < |oracles|
    ensures OraclesBytes(oracles)[84 * k..84 * k + 84] == OracleBytes(oracles[k])
  {
    var n := |oracles| - 1;
    if k < n {
      OracleAt(oracles[..n], k);
      Before(OraclesBytes(oracles[..n]), OracleBytes(oracles[n]), 84 * k, 84 * k + 84);
    }
  }

  /** The slices of a part are slices of the whole. */
  lemma Slice(input: seq<byte>, at: nat, part: seq<byte>, i: nat, j: nat)
    requires at + |part| <= |input| && input[at..at + |part|] == part && i <= j <= |part|
    ensures input[at + i..at + j] == part[i..j]
  {
    forall k | 0 <= k < j - i
      ensures input[at + i..at + j][k] == part[i..j][k]
    {
      assert input[at..at + |part|][i + k] == input[at + i + k];
    }
  }

  /** The keys of oracle `k` in a proposal preimage. */
  ghost predicate OracleField(input: seq<byte>, k: nat, o: ProposedOracle) {
    && 85 + 84 * k <= |input|
    && input[1 + 84 * k..21 + 84 * k] == o.signer
    && input[21 + 84 * k..53 + 84 * k] == o.transmitter
    && input[53 + 84 * k..85 + 84 * k] == o.payee
  }

  lemma OracleFields(p: Proposal, k: nat)
    requires k < |p.oracles|
    ensures OracleField(ProposalPreimage(p), k, p.oracles[k])
  {
    var (input, bytes, o) := (ProposalPreimage(p), OraclesBytes(p.oracles), OracleBytes(p.oracles[k]));
    OracleAt(p.oracles, k);
    Before(bytes, ProposalTail(p), 84 * k, 84 * k + 84);
    Within([|p.oracles| % 256], bytes + ProposalTail(p), 84 * k, 84 * k + 84);
    Slice(input, 1 + 84 * k, o, 0, 20);
    Slice(input, 1 + 84 * k, o, 20, 52);
    Slice(input, 1 + 84 * k, o, 52, 84);
    assert o[0..20] == p.oracles[k].signer && o[20..52] == p.oracles[k].transmitter && o[52..84] == p.oracles[k].payee;
  }

  /** The proposal preimage, field by field: the number of oracles, each with its keys, f, the mint, and the
      configuration bytes behind their version and length. */
  lemma ProposalPreimageFields(p: Proposal)
    requires ProposalSized(p)
    ensures var (input, at) := (ProposalPreimage(p), 1 + 84 * |p.oracles|);
            && |input| == at + 45 + |p.offchain.data| && input[0] == |p.oracles|
            && (forall k :: 0 <= k < |p.oracles| ==> OracleField(input, k, p.oracles[k]))
            && input[at] == p.f && input[at + 1..at + 33] == p.tokenMint
            && input[at + 33..at + 41] == ToBE(p.offchain.version, 8)
            && input[at + 41..at + 45] == ToBE(|p.offchain.data|, 4)
            && input[at + 45..] == p.offchain.data
  {
    var (input, tail) := (ProposalPreimage(p), ProposalTail(p));
    var at := 1 + 84 * |p.oracles|;
    forall k | 0 <= k < |p.oracles|
      ensures OracleField(input, k, p.oracles[k])
    {
      OracleFields(p, k);
    }
    TailFields(p);
    assert input[at..at + |tail|] == tail;
    assert input[at] == tail[0];
    Slice(input, at, tail, 1, 33);
    Slice(input, at, tail, 33, 41);
    Slice(input, at, tail, 41, 45);
    Slice(input, at, tail, 45, |tail|);
    assert input[at + 45..] == input[at + 45..at + |tail|];
  }

  lemma TailFields(p: Proposal)
    ensures var tail := ProposalTail(p);
            && |tail| == 45 + |p.offchain.data|
            && tail[0] == p.f && tail[1..33] == p.tokenMint
            && tail[33..41] == ToBE(p.offchain.version, 8) && tail[41..45] == ToBE(|p.offchain.data|, 4)
            && tail[45..] == p.offchain.data
  {}

  lemma {:induction false} ConcatAt(parts: seq<seq<byte>>, width: nat, k: nat)
    requires forall i :: 0 <= i < |parts| ==> |parts[i]| == width
    requires k < |parts|
    ensures |Concat(parts)| == |parts| * width && k * width + width <= |parts| * width
    ensures Concat(parts)[k * width..k * width + width] == parts[k]
  {
    var n := |parts| - 1;
    ConcatLength(parts, width);
    ConcatLength(parts[..n], width);
    MulOrder(width, k, n);
    MulOrder(width, k, |parts|);
    if k < n {
      ConcatAt(parts[..n], width, k);
      Before(Concat(parts[..n]), parts[n], k * width, k * width + width);
    }
  }

  lemma SixParts(f: byte, size: seq<byte>, onchain: seq<byte>, version: seq<byte>, length: seq<byte>, data: seq<byte>)
    requires |size| == 4 && |onchain| == 49 && |version| == 8 && |length| == 4
    ensures var all := [f] + (size + (onchain + (version + (length + data))));
            && |all| == 66 + |data| && all[0] == f && all[1..5] == size && all[5..54] == onchain
            && all[54..62] == version && all[62..66] == length && all[66..] == data
  {}

  lemma OnchainFields(minAnswer: i128, maxAnswer: i128)
    ensures var onchain := OnchainBytes(minAnswer, maxAnswer);
            && onchain[0] == 1
            && FromSignedBE(onchain[1..25]) == minAnswer && FromSignedBE(onchain[25..49]) == maxAnswer
  {
    AnswerWidths(minAnswer);
    AnswerWidths(maxAnswer);
    SignedRoundTrip(minAnswer, 24);
    SignedRoundTrip(maxAnswer, 24);
    var onchain := OnchainBytes(minAnswer, maxAnswer);
    assert onchain[1..25] == ToSignedBE(minAnswer, 24) && onchain[25..49] == ToSignedBE(maxAnswer, 24);
  }

  lemma ConfigTailFields(c: ConfigData)
    requires ConfigSized(c)
    ensures var tail := ConfigTail(c);
            && |tail| == 66 + |c.offchain.data|
            && tail[0] == c.f && tail[1..5] == [0, 0, 0, 49]
            && tail[5..54] == OnchainBytes(c.minAnswer, c.maxAnswer)
            && tail[54..62] == ToBE(c.offchain.version, 8) && tail[62..66] == ToBE(|c.offchain.data|, 4)
            && tail[66..] == c.offchain.data
  {
    Length49();
    SixParts(c.f, ToBE(49, 4), OnchainBytes(c.minAnswer, c.maxAnswer), ToBE(c.offchain.version, 8),
             ToBE(|c.offchain.data|, 4), c.offchain.data);
  }

  lemma Length49()
    ensures ToBE(49, 4) == [0, 0, 0, 49]
  {
    assert ToBE(0, 3) == [0, 0, 0] by {
      AllZeros(3);
    }
  }

  /** The keys of oracle `k` of `n` in a config preimage. */
  ghost predicate KeyFields(input: seq<byte>, n: nat, k: nat, signer: Address, transmitter: Bytes32) {
    && 20 * k + 20 <= 20 * n && 69 + 20 * n + 32 * k + 32 <= |input|
    && input[69 + 20 * k..89 + 20 * k] == signer
    && input[69 + 20 * n + 32 * k..69 + 20 * n + 32 * k + 32] == transmitter
  }

  lemma SecondPart(a: seq<byte>, b: seq<byte>, rest: seq<byte>, from: nat, to: nat)
    requires from <= to <= |b|
    ensures (a + (b + rest))[|a| + from..|a| + to] == b[from..to]
  {
    Within(a, b + rest, from, to);
    Before(b, rest, from, to);
  }

  lemma ThirdPart(a: seq<byte>, b: seq<byte>, c: seq<byte>, rest: seq<byte>, from: nat, to: nat)
    requires from <= to <= |c|
    ensures (a + (b + (c + rest)))[|a| + |b| + from..|a| + |b| + to] == c[from..to]
  {
    Within(a, b + (c + rest), |b| + from, |b| + to);
    SecondPart(b, c, rest, from, to);
  }

  lemma KeyLengths(c: ConfigData)
    requires ConfigSized(c)
    ensures |Concat(c.signers)| == 20 * |c.signers| && |Concat(c.transmitters)| == 32 * |c.signers|
  {
    ConcatLength(c.signers, 20);
    ConcatLength(c.transmitters, 32);
  }

  lemma SignerAt(head: seq<byte>, signers: seq<Address>, rest: seq<byte>, k: nat)
    requires |head| == 69 && k < |signers|
    ensures |Concat(signers)| == 20 * |signers|
    ensures (head + (Concat(signers) + rest))[69 + 20 * k..89 + 20 * k] == signers[k]
  {
    ConcatAt(signers, 20, k);
    SecondPart(head, Concat(signers), rest, 20 * k, 20 * k + 20);
  }

  lemma TransmitterAt(head: seq<byte>, middle: seq<byte>, transmitters: seq<Bytes32>, rest: seq<byte>, k: nat)
    requires |head| == 69 && k < |transmitters|
    ensures |Concat(transmitters)| == 32 * |transmitters|
    ensures var from := 69 + |middle| + 32 * k;
            (head + (middle + (Concat(transmitters) + rest)))[from..from + 32] == transmitters[k]
  {
    ConcatAt(transmitters, 32, k);
    ThirdPart(head, middle, Concat(transmitters), rest, 32 * k, 32 * k + 32);
  }

  lemma ConfigKeys(c: ConfigData, k: nat)
    requires ConfigSized(c) && k < |c.signers|
    ensures KeyFields(ConfigPreimage(c), |c.signers|, k, c.signers[k], c.transmitters[k])
  {
    SignerAt(ConfigHead(c), c.signers, Concat(c.transmitters) + ConfigTail(c), k);
    TransmitterAt(ConfigHead(c), Concat(c.signers), c.transmitters, ConfigTail(c), k);
  }

  lemma HeadFields(c: ConfigData)
    requires ConfigSized(c)
    ensures var head := ConfigHead(c);
            && head[0..32] == c.programId && head[32..64] == c.stateId
            && head[64..68] == ToBE(c.configCount, 4) && head[68] == |c.signers|
  {}

  lemma HeadOf(head: seq<byte>, rest: seq<byte>)
    requires |head| == 69
    ensures var input := head + rest;
            && input[0..32] == head[0..32] && input[32..64] == head[32..64] && input[64..68] == head[64..68]
            && input[68] == head[68]
  {}

  /** The rest of the input, seen from where it starts. */
  lemma TailOf(input: seq<byte>, at: nat, tail: seq<byte>)
    requires at <= |input| && input[at..] == tail && |tail| >= 66
    ensures input[at] == tail[0] && input[at + 1..at + 5] == tail[1..5] && input[at + 5..at + 54] == tail[5..54]
    ensures input[at + 54..at + 62] == tail[54..62] && input[at + 62..at + 66] == tail[62..66]
    ensures input[at + 66..] == tail[66..]
  {
    Slice(input, at, tail, 1, 5);
    Slice(input, at, tail, 5, 54);
    Slice(input, at, tail, 54, 62);
    Slice(input, at, tail, 62, 66);
    Slice(input, at, tail, 66, |tail|);
  }

  lemma TailBehind(a: seq<byte>, b: seq<byte>, c: seq<byte>, d: seq<byte>)
    ensures (a + (b + (c + d)))[|a| + |b| + |c|..] == d
  {}

  ghost predicate HeadHolds(input: seq<byte>, c: ConfigData) {
    && |input| >= 69
    && input[0..32] == c.programId && input[32..64] == c.stateId
    && input[64..68] == ToBE(c.configCount, 4) && input[68] == |c.signers|
  }

  ghost predicate TailHolds(input: seq<byte>, at: nat, c: ConfigData) {
    && |input| == at + 66 + |c.offchain.data|
    && input[at] == c.f && input[at + 1..at + 5] == [0, 0, 0, 49] && input[at + 5..at + 54][0] == 1
    && FromSignedBE(input[at + 5..at + 54][1..25]) == c.minAnswer
    && FromSignedBE(input[at + 5..at + 54][25..49]) == c.maxAnswer
    && input[at + 54..at + 62] == ToBE(c.offchain.version, 8)
    && input[at + 62..at + 66] == ToBE(|c.offchain.data|, 4)
    && input[at + 66..] == c.offchain.data
  }

  lemma TailThere(input: seq<byte>, at: nat, c: ConfigData)
    requires ConfigSized(c) && at <= |input| && input[at..] == ConfigTail(c)
    ensures TailHolds(input, at, c)
  {
    ConfigTailFields(c);
    OnchainFields(c.minAnswer, c.maxAnswer);
    TailOf(input, at, ConfigTail(c));
  }

  /** The config preimage, field by field: the program, the aggregator, the configuration count, the number of oracles,
      all signers, all transmitters, f, the onchain configuration of 49 bytes with both bounds in 192 bits, and the
      configuration bytes behind their version and length. */
  lemma ConfigPreimageFields(c: ConfigData)
    requires ConfigSized(c)
    ensures HeadHolds(ConfigPreimage(c), c)
    ensures forall k :: 0 <= k < |c.signers| ==>
              KeyFields(ConfigPreimage(c), |c.signers|, k, c.signers[k], c.transmitters[k])
    ensures TailHolds(ConfigPreimage(c), 69 + 52 * |c.signers|, c)
  {
    var (head, signers, transmitters) := (ConfigHead(c), Concat(c.signers), Concat(c.transmitters));
    var tail := ConfigTail(c);
    forall k | 0 <= k < |c.signers|
      ensures KeyFields(ConfigPreimage(c), |c.signers|, k, c.signers[k], c.transmitters[k])
    {
      ConfigKeys(c, k);
    }
    KeyLengths(c);
    HeadFields(c);
    HeadOf(head, signers + (transmitters + tail));
    TailBehind(head, signers, transmitters, tail);
    TailThere(ConfigPreimage(c), 69 + 52 * |c.signers|, c);
  }
}

/** What the main instructions do, to the byte and to the token: when each succeeds, and everything it
    changes, in terms of the raw instruction and the accounts before it. */
module Ocr2Exact {
  import opened Bytes
  import opened Collections
  import opened Ocr2Types
  import opened Ocr2
  import opened Ocr2Invariants
  import opened Ocr2Ledger
  import opened Ocr2Solvency
  import opened Ocr2Authority
  import ComputeBudget
  import Report

  // ----- A raw transmission

  function EpochOf(raw: seq<byte>): u32
    requires |raw| >= 158
  {
    Word(raw[60], raw[61], raw[62], raw[63])
  }

  function TimestampOf(raw: seq<byte>): u32
    requires |raw| >= 158
  {
    Word(raw[97], raw[98], raw[99], raw[100])
  }

  /** The last field: what a lamport is worth in juels. */
  function JuelsPerLamportOf(raw: seq<byte>): u64
    requires |raw| >= 158
  {
    Words(Word(raw[150], raw[151], raw[152], raw[153]), Word(raw[154], raw[155], raw[156], raw[157]))
  }

  /** What the oracles sign: the report behind its length, then the context. */
  function SignedBytes(raw: seq<byte>): seq<byte>
    requires |raw| >= 158
  {
    [61] + raw[97..158] + raw[1..97]
  }

  /** The unit price a transaction sets: none without the sysvar or with nothing before the transmission, otherwise
      that of the instruction right before it, which has to be a compute-budget price. */
  ghost predicate SetsPrice(sysvar: Option<ComputeBudget.Sysvar>, price: Option<nat>) {
    if sysvar.None? || sysvar.value.current == 0 then price == None else
    var (m, at) := (sysvar.value.message, sysvar.value.current - 1);
    && at < |m.instructions| && m.instructions[at].programIdIndex < |m.accountKeys|
    && m.accountKeys[m.instructions[at].programIdIndex] == ComputeBudget.COMPUTE_BUDGET
    && ComputeBudget.IsPrice(m.instructions[at].data)
    && price == Some(ComputeBudget.PriceIn(m.instructions[at].data))
  }

  lemma UnitPriceExact(sysvar: Option<ComputeBudget.Sysvar>, price: Option<nat>)
    ensures UnitPrice(sysvar) == Ok(price) <==> SetsPrice(sysvar, price)
  {
    if sysvar.Some? && sysvar.value.current > 0 && sysvar.value.current <= |sysvar.value.message.instructions| {
      var data := sysvar.value.message.instructions[sysvar.value.current - 1].data;
      if |data| == 9 {
        LittleEndian8(data[1..9]);
      }
    }
  }

  /** The fields of a raw transmission are where the program reads them. */
  lemma RawFields(raw: seq<byte>)
    requires ParseTransmission(raw).Ok?
    ensures var t := ParseTransmission(raw).value;
            && t.Epoch() == EpochOf(raw) && t.Round() == raw[64] && t.ConfigDigest() == raw[1..33]
            && |t.signatures| == |raw| - 158
    ensures var report := Report.Unpack(ParseTransmission(raw).value.report);
            && report.Ok? && report.value.observerCount == raw[101] && report.value.timestamp == TimestampOf(raw)
            && report.value.median == FromSignedBE(raw[134..150])
            && report.value.juelsPerLamport == JuelsPerLamportOf(raw)
  {
    var t := ParseTransmission(raw).value;
    assert t.context[59..63] == raw[60..64] && t.context[..32] == raw[1..33];
    BigEndian4(raw[60..64]);
    assert t.report[0..4] == raw[97..101] && t.report[37..53] == raw[134..150] && t.report[53..61] == raw[150..158];
    BigEndian4(raw[97..101]);
    BigEndian8(raw[150..158]);
  }

  // ----- Accepting a transmission

  ghost predicate Acceptable(env: Env, c: Chain, transmitter: Bytes32, raw: seq<byte>,
                             sysvar: Option<ComputeBudget.Sysvar>)
  {
    && |raw| == 158 + 65 * (c.config.f + 1)
    && (c.config.epoch < EpochOf(raw) || (c.config.epoch == EpochOf(raw) && c.config.round < raw[64]))
    && (exists i :: 0 <= i < |c.oracles| && c.oracles[i].transmitter == transmitter)
    && raw[1..33] == c.config.configDigest
    && (exists signers :: |signers| == c.config.f + 1 && SignedBy(env, c.oracles, raw, signers))
    && c.config.f < raw[101]
    && c.config.minAnswer <= FromSignedBE(raw[134..150]) <= c.config.maxAnswer
    && c.config.latestRoundId < 0xFFFF_FFFF
    && (exists price :: SetsPrice(sysvar, price))
  }

  /** The account with a credit added, as much of it as fits. */
  ghost predicate Credited(before: Oracle, after: Oracle, credit: nat) {
    after == before.(payment := after.payment)
    && after.payment == if before.payment + credit <= 0xFFFF_FFFF_FFFF_FFFF then before.payment + credit
                        else 0xFFFF_FFFF_FFFF_FFFF
  }

  /** An accepted round, when the reimbursement is `gjuels`: the transmitter gets that and the transmission fee. */
  ghost predicate Recorded(c: Chain, c': Chain, transmitter: Bytes32, raw: seq<byte>, gjuels: nat)
    requires |raw| >= 158
  {
    && c.config.latestRoundId < 0xFFFF_FFFF
    && c' == c.(config := c.config.(epoch := EpochOf(raw), round := raw[64],
                                    latestRoundId := c.config.latestRoundId + 1, latestTransmitter := transmitter),
                oracles := c'.oracles,
                answers := c.answers + [Answer(FromSignedBE(raw[134..150]), TimestampOf(raw))])
    && |c'.oracles| == |c.oracles|
    && forall i :: 0 <= i < |c.oracles| ==>
         if c.oracles[i].transmitter == transmitter
         then Credited(c.oracles[i], c'.oracles[i], gjuels + c.config.billing.transmission)
         else c'.oracles[i] == c.oracles[i]
  }

  /** A transmission is accepted exactly when its bytes say so, and then does exactly this. */
  lemma TransmitExact(env: Env, c: Chain, transmitter: Bytes32, raw: seq<byte>, sysvar: Option<ComputeBudget.Sysvar>,
                      storeAccepts: bool)
    requires Inv(c)
    ensures var r := Exec(env, c, Transmit(transmitter, raw, sysvar, storeAccepts));
            && (r.Ok? <==> storeAccepts && Acceptable(env, c, transmitter, raw, sysvar))
            && (r.Ok? ==>
                  && r.value.payments == []
                  && exists price, gjuels ::
                       && SetsPrice(sysvar, price)
                       && ComputeBudget.Reimburses(JuelsPerLamportOf(raw), c.config.f + 1, price, gjuels)
                       && Recorded(c, r.value.chain, transmitter, raw, gjuels))
  {
    var r := Exec(env, c, Transmit(transmitter, raw, sysvar, storeAccepts));
    if ParseTransmission(raw).Ok? {
      var t := ParseTransmission(raw).value;
      RawFields(raw);
      CheckPasses(env, c, transmitter, t, sysvar);
      PassesExact(env, c, transmitter, raw, sysvar);
      if r.Ok? {
        Checked(env, c, transmitter, t, sysvar);
        AcceptedRecorded(c, transmitter, raw, sysvar, CheckTransmit(env, c, transmitter, t, sysvar).value);
      }
    }
  }

  lemma PriceExists(sysvar: Option<ComputeBudget.Sysvar>)
    ensures UnitPrice(sysvar).Ok? <==> exists price :: SetsPrice(sysvar, price)
  {
    if UnitPrice(sysvar).Ok? {
      UnitPriceExact(sysvar, UnitPrice(sysvar).value);
    }
    forall price | SetsPrice(sysvar, price)
      ensures UnitPrice(sysvar).Ok?
    {
      UnitPriceExact(sysvar, price);
    }
  }

  /** All the checks at once. */
  ghost predicate Passes(env: Env, c: Chain, transmitter: Bytes32, t: Transmission,
                         sysvar: Option<ComputeBudget.Sysvar>)
    requires t.Sized()
  {
    && Newer(c.config, t.Epoch(), t.Round()) && FindTransmitter(c.oracles, transmitter).Some?
    && c.config.configDigest == t.ConfigDigest() && VerifySignatures(env, c.oracles, c.config.f, t).Ok?
    && c.config.latestRoundId < U32_MAX && UnitPrice(sysvar).Ok?
    && var report := Report.Unpack(t.report);
       && report.Ok? && c.config.f < report.value.observerCount
       && c.config.minAnswer <= report.value.median <= c.config.maxAnswer
  }

  lemma CheckPasses(env: Env, c: Chain, transmitter: Bytes32, t: Transmission, sysvar: Option<ComputeBudget.Sysvar>)
    requires t.Sized()
    ensures CheckTransmit(env, c, transmitter, t, sysvar).Ok? <==> Passes(env, c, transmitter, t, sysvar)
  {}

  lemma PassesExact(env: Env, c: Chain, transmitter: Bytes32, raw: seq<byte>, sysvar: Option<ComputeBudget.Sysvar>)
    requires Inv(c) && ParseTransmission(raw).Ok?
    ensures Passes(env, c, transmitter, ParseTransmission(raw).value, sysvar)
            <==> Acceptable(env, c, transmitter, raw, sysvar)
  {
    RawFields(raw);
    PriceExists(sysvar);
    var t := ParseTransmission(raw).value;
    if c.oracles != [] {
      VerifyExact(env, c.oracles, c.config.f, raw);
    }
    if VerifySignatures(env, c.oracles, c.config.f, t).Ok? {
      VerifiedSigners(env, c.oracles, c.config.f, raw);
    }
  }

  /** The reimbursement of an acceptance, and the state it leaves. */
  lemma AcceptedRecorded(c: Chain, transmitter: Bytes32, raw: seq<byte>, sysvar: Option<ComputeBudget.Sysvar>,
                         a: Acceptance)
    requires Inv(c) && ParseTransmission(raw).Ok? && c.config.latestRoundId < U32_MAX
    requires a.transmitter < |c.oracles| && c.oracles[a.transmitter].transmitter == transmitter
    requires Report.Unpack(ParseTransmission(raw).value.report) == Ok(a.report) && UnitPrice(sysvar).Ok?
    requires a.reimbursement == ComputeBudget.Reimbursement(a.report.juelsPerLamport, c.config.f + 1,
                                                            UnitPrice(sysvar).value)
    ensures SetsPrice(sysvar, UnitPrice(sysvar).value)
    ensures ComputeBudget.Reimburses(JuelsPerLamportOf(raw), c.config.f + 1, UnitPrice(sysvar).value, a.reimbursement)
    ensures Recorded(c, ApplyTransmit(c, transmitter, ParseTransmission(raw).value, a), transmitter, raw,
                     a.reimbursement)
  {
    var price := UnitPrice(sysvar).value;
    RawFields(raw);
    UnitPriceExact(sysvar, price);
    ComputeBudget.ReimbursementExact(JuelsPerLamportOf(raw), c.config.f + 1, price, a.reimbursement);
    AppliedRecorded(c, transmitter, ParseTransmission(raw).value, a, raw);
  }

  lemma Checked(env: Env, c: Chain, transmitter: Bytes32, t: Transmission, sysvar: Option<ComputeBudget.Sysvar>)
    requires t.Sized() && CheckTransmit(env, c, transmitter, t, sysvar).Ok?
    ensures var a := CheckTransmit(env, c, transmitter, t, sysvar).value;
            && a.transmitter < |c.oracles| && c.oracles[a.transmitter].transmitter == transmitter
            && c.config.latestRoundId < U32_MAX
            && Report.Unpack(t.report) == Ok(a.report) && UnitPrice(sysvar).Ok?
            && a.reimbursement == ComputeBudget.Reimbursement(a.report.juelsPerLamport, c.config.f + 1,
                                                              UnitPrice(sysvar).value)
  {}

  lemma AppliedRecorded(c: Chain, transmitter: Bytes32, t: Transmission, a: Acceptance, raw: seq<byte>)
    requires Inv(c) && t.Sized() && |raw| >= 158 && c.config.latestRoundId < U32_MAX
    requires a.transmitter < |c.oracles| && c.oracles[a.transmitter].transmitter == transmitter
    requires t.Epoch() == EpochOf(raw) && t.Round() == raw[64]
    requires a.report.timestamp == TimestampOf(raw) && a.report.median == FromSignedBE(raw[134..150])
    ensures Recorded(c, ApplyTransmit(c, transmitter, t, a), transmitter, raw, a.reimbursement)
  {
    var c' := ApplyTransmit(c, transmitter, t, a);
    OneTransmitter(c, transmitter, a.transmitter);
    CreditedOnce(c.oracles[a.transmitter], a.reimbursement, c.config.billing.transmission);
    assert Credited(c.oracles[a.transmitter], c'.oracles[a.transmitter],
                    a.reimbursement + c.config.billing.transmission);
  }

  lemma CreditedOnce(oracle: Oracle, gjuels: u64, fee: nat)
    ensures Credited(oracle, oracle.(payment := SaturatingAdd64(oracle.payment, SaturatingAdd64(gjuels, fee))),
                     gjuels + fee)
  {}

  lemma OneTransmitter(c: Chain, transmitter: Bytes32, i: nat)
    requires Inv(c) && i < |c.oracles| && c.oracles[i].transmitter == transmitter
    ensures forall j :: 0 <= j < |c.oracles| && c.oracles[j].transmitter == transmitter ==> j == i
  {
    forall j | 0 <= j < |c.oracles| && c.oracles[j].transmitter == transmitter
      ensures j == i
    {
      assert Transmitters(c.oracles)[j] == Transmitters(c.oracles)[i];
    }
  }

  // ----- Signatures are for one round only

  /** Transmissions signed alike are alike: digest, epoch, round and report. */
  lemma SignedBytesDetermine(a: seq<byte>, b: seq<byte>)
    requires |a| >= 158 && |b| >= 158 && SignedBytes(a) == SignedBytes(b)
    ensures a[1..158] == b[1..158]
    ensures a[1..33] == b[1..33] && EpochOf(a) == EpochOf(b) && a[64] == b[64]
    ensures a[97..158] == b[97..158]
  {
    SplitEqual([61] + a[97..158], a[1..97], [61] + b[97..158], b[1..97]);
    SplitEqual([61], a[97..158], [61], b[97..158]);
    forall i | 1 <= i < 158
      ensures a[i] == b[i]
    {
      if i < 97 {
        assert a[1..97][i - 1] == b[1..97][i - 1];
      } else {
        assert a[97..158][i - 97] == b[97..158][i - 97];
      }
    }
  }

  lemma AcceptedStamp(env: Env, c: Chain, ix: Ix)
    requires ix.Transmit? && Exec(env, c, ix).Ok?
    ensures |ix.raw| >= 158 && Stamp(Step(env, c, ix)) == EpochOf(ix.raw) * 256 + ix.raw[64]
  {
    RawFields(ix.raw);
  }

  lemma {:induction false} StampsNeverFall(env: Env, c: Chain, ixs: seq<Ix>, k: nat)
    requires k <= |ixs|
    ensures Stamp(Run(env, c, ixs[..k])) <= Stamp(Run(env, c, ixs))
  {
    if k == |ixs| {
      assert ixs[..k] == ixs;
    } else {
      var front := ixs[..|ixs| - 1];
      assert front[..k] == ixs[..k];
      StampsNeverFall(env, c, front, k);
      OnlyTransmitAdvances(env, Run(env, c, front), ixs[|ixs| - 1]);
    }
  }

  /** Over every run, across reconfigurations: what the oracles signed for one accepted transmission is never
      accepted again, with whatever signatures. */
  lemma NothingReplayed(env: Env, c: Chain, ixs: seq<Ix>, j: nat, k: nat)
    requires j < k < |ixs| && ixs[j].Transmit? && ixs[k].Transmit?
    requires Exec(env, Run(env, c, ixs[..j]), ixs[j]).Ok? && Exec(env, Run(env, c, ixs[..k]), ixs[k]).Ok?
    ensures |ixs[j].raw| >= 158 && |ixs[k].raw| >= 158 && SignedBytes(ixs[j].raw) != SignedBytes(ixs[k].raw)
  {
    var (early, late) := (Run(env, c, ixs[..j]), Run(env, c, ixs[..k]));
    AcceptedStamp(env, early, ixs[j]);
    AcceptedStamp(env, late, ixs[k]);
    assert ixs[..j + 1][..j] == ixs[..j] && ixs[..k][..j + 1] == ixs[..j + 1];
    assert Run(env, c, ixs[..j + 1]) == Step(env, early, ixs[j]);
    StampsNeverFall(env, c, ixs[..k], j + 1);
    OnlyTransmitAdvances(env, late, ixs[k]);
    if SignedBytes(ixs[j].raw) == SignedBytes(ixs[k].raw) {
      SignedBytesDetermine(ixs[j].raw, ixs[k].raw);
    }
  }

  // ----- Withdrawing

  /** The first oracle paid at a token account. */
  ghost predicate FirstPaidAt(oracles: seq<Oracle>, payee: Bytes32, i: nat) {
    && i < |oracles| && oracles[i].payee == payee
    && forall j :: 0 <= j < i ==> oracles[j].payee != payee
  }

  /** Tokens went from one account to another, and nowhere else. */
  ghost predicate Sent(before: map<Bytes32, TokenAccount>, after: map<Bytes32, TokenAccount>, from: Bytes32,
                       to: Bytes32, amount: nat)
  {
    && from != to && from in before && to in before && after.Keys == before.Keys
    && after[from].amount + amount == before[from].amount && after[to].amount == before[to].amount + amount
    && (forall key :: key in before ==> after[key].mint == before[key].mint && after[key].owner == before[key].owner)
    && (forall key :: key in before && key != from && key != to ==> after[key] == before[key])
  }

  /** Only the account of oracle `i` was settled, up to the latest round. */
  ghost predicate OnlySettled(c: Chain, oracles: seq<Oracle>, i: nat) {
    && i < |c.oracles| == |oracles|
    && oracles[i] == c.oracles[i].(payment := 0, fromRoundId := c.config.latestRoundId)
    && forall j :: 0 <= j < |oracles| && j != i ==> oracles[j] == c.oracles[j]
  }

  /** The vault is an account of the mint it was created for, and another one than `account`. */
  ghost predicate VaultIsNot(c: Chain, account: Bytes32) {
    && c.config.tokenVault in c.tokens && c.tokens[c.config.tokenVault].mint == c.config.tokenMint
    && account != c.config.tokenVault
  }

  /** A transfer out of the vault goes through exactly when the other account is of its mint and it is covered. */
  lemma TransferExact(tokens: map<Bytes32, TokenAccount>, vault: Bytes32, to: Bytes32, amount: nat)
    requires SupplyFits(tokens, vault) && to != vault
    ensures var r := TransferTokens(tokens, vault, to, amount);
            && (r.Ok? <==> to in tokens && tokens[to].mint == tokens[vault].mint && amount <= tokens[vault].amount)
            && (r.Ok? ==> Sent(tokens, r.value, vault, to, amount))
  {
    if to in tokens && tokens[to].mint == tokens[vault].mint {
      assert tokens[to].amount + tokens[vault].amount <= U64_MAX;
    }
  }

  lemma NothingSent(tokens: map<Bytes32, TokenAccount>, from: Bytes32, to: Bytes32)
    requires from in tokens && to in tokens && from != to
    ensures Sent(tokens, tokens, from, to, 0)
  {}

  /** `withdraw_payment` succeeds exactly when the signer owns the payee's account, which is of the mint, and the first
      oracle paid there is owed no more than the vault holds. Then that account receives what that oracle is owed, and
      nothing else changes but the vault and that oracle's account. */
  lemma WithdrawPaymentExact(c: Chain, authority: Bytes32, payee: Bytes32)
    requires NotAhead(c.oracles, c.config.latestRoundId)
    requires VaultIsNot(c, payee) && SupplyFits(c.tokens, c.config.tokenVault)
    ensures var (r, vault) := (ExecWithdrawPayment(c, authority, payee), c.config.tokenVault);
            && (r.Ok? <==>
                  && payee in c.tokens && c.tokens[payee].mint == c.config.tokenMint
                  && c.tokens[payee].owner == authority
                  && exists i :: FirstPaidAt(c.oracles, payee, i) && Unpaid(c, i) <= c.tokens[vault].amount)
            && (r.Ok? ==>
                  exists i ::
                    && FirstPaidAt(c.oracles, payee, i) && Unpaid(c, i) >= 0
                    && r.value.chain == c.(oracles := r.value.chain.oracles, tokens := r.value.chain.tokens)
                    && Sent(c.tokens, r.value.chain.tokens, vault, payee, Unpaid(c, i))
                    && OnlySettled(c, r.value.chain.oracles, i)
                    && r.value.payments == if Unpaid(c, i) == 0 then [] else [Payment(i, payee, Unpaid(c, i))])
  {
    FirstFound(c.oracles, payee);
    if FindPayee(c.oracles, payee).Some? {
      var i := FindPayee(c.oracles, payee).value;
      assert forall j :: FirstPaidAt(c.oracles, payee, j) ==> j == i;
      OwedExact(c, i);
      UnpaidNonNegative(c, i);
      TransferExact(c.tokens, c.config.tokenVault, payee, Unpaid(c, i));
      if payee in c.tokens {
        NothingSent(c.tokens, c.config.tokenVault, payee);
      }
    }
  }

  lemma {:induction false} FirstFound(oracles: seq<Oracle>, payee: Bytes32)
    ensures FindPayee(oracles, payee).Some? ==> FirstPaidAt(oracles, payee, FindPayee(oracles, payee).value)
  {
    if oracles != [] && oracles[0].payee != payee && FindPayee(oracles, payee).Some? {
      FirstFound(oracles[1..], payee);
      forall j | 0 <= j < FindPayee(oracles, payee).value
        ensures oracles[j].payee != payee
      {
        if j > 0 {
          assert oracles[1..][j - 1] == oracles[j];
        }
      }
    }
  }

  /** `withdraw_funds` succeeds exactly when the program can total what is due and the recipient's account is of the
      mint. Then it receives the request, or the balance beyond what is due when that is less. */
  lemma WithdrawFundsExact(c: Chain, recipient: Bytes32, amount: nat)
    requires NotAhead(c.oracles, c.config.latestRoundId)
    requires VaultIsNot(c, recipient) && SupplyFits(c.tokens, c.config.tokenVault)
    ensures var (r, vault, due) := (ExecWithdrawFunds(c, recipient, amount), c.config.tokenVault,
                                    Due(c.config, c.oracles));
            && (r.Ok? <==>
                  && SumRounds(c.oracles, c.config.latestRoundId) <= 0xFFFF_FFFF
                  && SumPayments(c.oracles) <= 0xFFFF_FFFF_FFFF_FFFF && due <= 0xFFFF_FFFF_FFFF_FFFF
                  && recipient in c.tokens && c.tokens[recipient].mint == c.config.tokenMint)
            && (r.Ok? ==>
                  var balance := c.tokens[vault].amount;
                  && r.value.payments == [] && r.value.chain == c.(tokens := r.value.chain.tokens)
                  && Sent(c.tokens, r.value.chain.tokens, vault, recipient,
                          if balance <= due then 0 else if amount <= balance - due then amount else balance - due))
  {
    TotalDueExact(c.config, c.oracles);
    SumsNonNegative(c.config, c.oracles);
    if TotalDue(c.config, c.oracles).Ok? {
      var available := SaturatingSub(c.tokens[c.config.tokenVault].amount, TotalDue(c.config, c.oracles).value);
      TransferExact(c.tokens, c.config.tokenVault, recipient, Min(amount, available));
    }
  }

  /** Billing instructions need exactly a grant and what they do; setting the rates pays out first, at the old ones. */
  lemma BillingExact(c: Chain, authority: Bytes32, controller: Bytes32, ix: BillingIx)
    ensures var r := ExecBilling(c, authority, controller, ix);
            match ix
            case SetBilling(billing, payees, receiver) =>
              var paid := PayOraclesImpl(c, payees, receiver);
              && (r.Ok? <==> Granted(c, authority, controller, c.config.billingController) && paid.Ok?)
              && (r.Ok? ==> r.value == Effect(paid.value.chain.(config := c.config.(billing := billing)),
                                              paid.value.payments))
            case PayOracles(payees, receiver) =>
              && (r.Ok? <==> Granted(c, authority, controller, c.config.billingController)
                             && PayOraclesImpl(c, payees, receiver).Ok?)
              && (r.Ok? ==> r == PayOraclesImpl(c, payees, receiver))
            case WithdrawFunds(recipient, amount) =>
              && (r.Ok? <==> Granted(c, authority, controller, c.config.billingController)
                             && ExecWithdrawFunds(c, recipient, amount).Ok?)
              && (r.Ok? ==> r == ExecWithdrawFunds(c, recipient, amount))
  {
    match ix
    case SetBilling(_, payees, receiver) =>
      if PayOraclesImpl(c, payees, receiver).Ok? {
        PayFrame(c, payees, receiver);
      }
    case _ =>
  }
}

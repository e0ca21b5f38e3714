/** Compute-budget instructions: how the node writes a price into a transaction,
    how the program reads it back, and what it reimburses. */
module ComputeBudget {
  import opened Bytes
  import opened Collections
  import opened Ocr2Types

  const COMPUTE_BUDGET: Bytes32 := [
    3, 6, 70, 111, 229, 33, 23, 50, 255, 236, 173, 186, 114, 195, 155, 231,
    188, 140, 229, 187, 197, 247, 18, 107, 44, 67, 155, 58, 64, 0, 0, 0]

  const SET_LIMIT: byte := 2
  const SET_PRICE: byte := 3

  datatype Instruction = Instruction(programIdIndex: nat, accounts: seq<nat>, data: seq<byte>)

  datatype Message = Message(accountKeys: seq<Bytes32>, readonlyUnsigned: nat, instructions: seq<Instruction>)

  // ----- Instruction data

  /** `encode`: the identifier and the value, little-endian. */
  function Encode(identifier: byte, value: nat, width: nat): (r: seq<byte>)
    ensures |r| == 1 + width
  {
    [identifier] + ToLE(value, width)
  }

  /** `parse`. */
  function Parse(identifier: byte, data: seq<byte>, width: nat): Result<nat> {
    if |data| != 1 + width then Err(InvalidInput)
    else if data[0] != identifier then Err(InvalidInput)
    else Ok(FromLE(data[1..]))
  }

  lemma ParseEncode(identifier: byte, other: byte, value: nat, width: nat)
    requires value < Pow256(width)
    ensures Parse(other, Encode(identifier, value, width), width)
            == if other == identifier then Ok(value) else Err(InvalidInput)
  {
    LittleEndianRoundTrip(value, width);
    assert Encode(identifier, value, width)[1..] == ToLE(value, width);
  }

  // ----- Setting an instruction, as a function of the message

  /** The first position of the compute-budget program among the keys, or their number. */
  function ProgramIndex(keys: seq<Bytes32>): (r: nat)
    ensures r <= |keys|
    ensures r < |keys| <==> COMPUTE_BUDGET in keys
    ensures r < |keys| ==> keys[r] == COMPUTE_BUDGET
    ensures forall i :: 0 <= i < r ==> keys[i] != COMPUTE_BUDGET
  {
    if keys == [] then 0
    else if keys[0] == COMPUTE_BUDGET then 0
    else 1 + ProgramIndex(keys[1..])
  }

  predicate Matches(ix: Instruction, program: nat, selector: byte) {
    ix.programIdIndex == program && |ix.data| > 0 && ix.data[0] == selector
  }

  /** The first instruction to replace, or the number of instructions. */
  function FirstMatch(instructions: seq<Instruction>, program: nat, selector: byte): (r: nat)
    ensures r <= |instructions|
    ensures r < |instructions| ==> Matches(instructions[r], program, selector)
    ensures forall i :: 0 <= i < r ==> !Matches(instructions[i], program, selector)
  {
    if instructions == [] then 0
    else if Matches(instructions[0], program, selector) then 0
    else 1 + FirstMatch(instructions[1..], program, selector)
  }

  function WithProgram(m: Message): Message {
    if COMPUTE_BUDGET in m.accountKeys then m
    else m.(accountKeys := m.accountKeys + [COMPUTE_BUDGET], readonlyUnsigned := (m.readonlyUnsigned + 1) % 256)
  }

  /** Replace the first match, or add at the front or the back. */
  function Put(instructions: seq<Instruction>, ix: Instruction, program: nat, selector: byte, front: bool)
    : seq<Instruction>
  {
    var found := FirstMatch(instructions, program, selector);
    if found < |instructions| then instructions[found := ix]
    else if front then [ix] + instructions
    else instructions + [ix]
  }

  function SetSpec(m: Message, data: seq<byte>, selector: byte, front: bool): Message {
    var program := ProgramIndex(m.accountKeys);
    var ix := Instruction(program % (U16_MAX + 1), [], data);
    WithProgram(m).(instructions := Put(m.instructions, ix, program, selector, front))
  }

  function SetPrice(m: Message, price: nat): Message {
    SetSpec(m, Encode(SET_PRICE, price, 8), SET_PRICE, true)
  }

  function SetLimit(m: Message, limit: nat): Message {
    SetSpec(m, Encode(SET_LIMIT, limit, 4), SET_LIMIT, false)
  }

  /** The transaction the node edits in place. */
  class Transaction {
    var accountKeys: seq<Bytes32>
    var readonlyUnsigned: nat
    var instructions: seq<Instruction>

    constructor (m: Message)
      ensures Value() == m
    {
      accountKeys, readonlyUnsigned, instructions := m.accountKeys, m.readonlyUnsigned, m.instructions;
    }

    function Value(): Message
      reads this
    {
      Message(accountKeys, readonlyUnsigned, instructions)
    }

    /** `set`. */
    method Set(data: seq<byte>, selector: byte, appendToFront: bool)
      modifies this
      ensures Value() == SetSpec(old(Value()), data, selector, appendToFront)
    {
      ghost var before := Value();
      var present, programIdx := false, 0;
      var i := 0;
      while i < |accountKeys|
        invariant 0 <= i <= |accountKeys| && Value() == before && !present
        invariant forall j :: 0 <= j < i ==> accountKeys[j] != COMPUTE_BUDGET
      {
        if accountKeys[i] == COMPUTE_BUDGET {
          present, programIdx := true, i;
          break;
        }
        i := i + 1;
      }
      if !present {
        accountKeys := accountKeys + [COMPUTE_BUDGET];
        programIdx := |accountKeys| - 1;
        readonlyUnsigned := (readonlyUnsigned + 1) % 256;
      }
      assert programIdx == ProgramIndex(before.accountKeys);

      var ix := Instruction(programIdx % (U16_MAX + 1), [], data);
      var found, instructionIdx := false, 0;
      i := 0;
      while i < |instructions|
        invariant 0 <= i <= |instructions| && !found
        invariant instructions == before.instructions
        invariant forall j :: 0 <= j < i ==> !Matches(instructions[j], programIdx, selector)
        invariant accountKeys == WithProgram(before).accountKeys
                  && readonlyUnsigned == WithProgram(before).readonlyUnsigned
      {
        if instructions[i].programIdIndex == programIdx && |instructions[i].data| > 0
            && instructions[i].data[0] == selector {
          found, instructionIdx := true, i;
          break;
        }
        i := i + 1;
      }
      if found {
        instructions := instructions[instructionIdx := ix];
      } else if appendToFront {
        instructions := [ix] + instructions;
      } else {
        instructions := instructions + [ix];
      }
    }
  }

  // ----- What setting does

  /** Instruction indices fit their 16 bits and point at keys. */
  ghost predicate WellFormed(m: Message) {
    && |m.accountKeys| <= U16_MAX
    && forall i :: 0 <= i < |m.instructions| ==> m.instructions[i].programIdIndex < |m.accountKeys|
  }

  function ProgramOf(m: Message, i: nat): Bytes32
    requires i < |m.instructions| && m.instructions[i].programIdIndex < |m.accountKeys|
  {
    m.accountKeys[m.instructions[i].programIdIndex]
  }

  ghost predicate NoBudget(m: Message)
    requires WellFormed(m)
  {
    forall i :: 0 <= i < |m.instructions| ==> ProgramOf(m, i) != COMPUTE_BUDGET
  }

  /** Setting twice is setting once with the last value. */
  lemma SetTwice(m: Message, a: seq<byte>, b: seq<byte>, selector: byte, front: bool)
    requires |m.accountKeys| <= U16_MAX
    requires a != [] && a[0] == selector && b != [] && b[0] == selector
    ensures SetSpec(SetSpec(m, a, selector, front), b, selector, front) == SetSpec(m, b, selector, front)
  {
    var program := ProgramIndex(m.accountKeys);
    var once := Put(m.instructions, Instruction(program, [], a), program, selector, front);
    SetOnce(m, a, selector, front);
    SetOnce(m, b, selector, front);
    SetAfter(m, once, b, selector, front);
    PutTwice(m.instructions, Instruction(program, [], a), Instruction(program, [], b), program, selector, front);
  }

  lemma SetOnce(m: Message, data: seq<byte>, selector: byte, front: bool)
    requires ProgramIndex(m.accountKeys) <= U16_MAX
    ensures var program := ProgramIndex(m.accountKeys);
            SetSpec(m, data, selector, front)
            == WithProgram(m).(instructions := Put(m.instructions, Instruction(program, [], data), program, selector,
                                                   front))
  {
    var program := ProgramIndex(m.accountKeys);
    FitsIndex(program);
    assert Instruction(program % (U16_MAX + 1), [], data) == Instruction(program, [], data);
  }

  lemma FitsIndex(program: nat)
    requires program <= U16_MAX
    ensures program % (U16_MAX + 1) == program
  {}

  /** Once the program is among the keys, only the instructions change. */
  lemma SetAfter(m: Message, instructions: seq<Instruction>, data: seq<byte>, selector: byte, front: bool)
    requires |m.accountKeys| <= U16_MAX
    ensures var program := ProgramIndex(m.accountKeys);
            SetSpec(WithProgram(m).(instructions := instructions), data, selector, front)
            == WithProgram(m).(instructions := Put(instructions, Instruction(program, [], data), program, selector,
                                                   front))
  {
    ProgramStays(m);
    SetOnce(WithProgram(m).(instructions := instructions), data, selector, front);
  }

  lemma ProgramStays(m: Message)
    ensures ProgramIndex(WithProgram(m).accountKeys) == ProgramIndex(m.accountKeys)
    ensures WithProgram(WithProgram(m)) == WithProgram(m)
  {}

  lemma PutTwice(instructions: seq<Instruction>, a: Instruction, b: Instruction, program: nat, selector: byte,
                 front: bool)
    requires Matches(a, program, selector) && Matches(b, program, selector)
    ensures Put(Put(instructions, a, program, selector, front), b, program, selector, front)
            == Put(instructions, b, program, selector, front)
  {
    var found := FirstMatch(instructions, program, selector);
    var once := Put(instructions, a, program, selector, front);
    var again := FirstMatch(once, program, selector);
    if found < |instructions| {
      assert Matches(once[found], program, selector);
      assert again == found;
    } else if front {
      assert Matches(once[0], program, selector);
      assert once[again := b] == [b] + instructions;
    } else {
      assert Matches(once[|instructions|], program, selector);
      assert again == |instructions|;
    }
  }

  /** Every other instruction keeps its data, its accounts, its program and its place relative to the others. */
  lemma SetKeepsOthers(m: Message, data: seq<byte>, selector: byte, front: bool) returns (at: nat)
    requires WellFormed(m)
    ensures var after := SetSpec(m, data, selector, front);
            && at < |after.instructions|
            && after.instructions[at].data == data && after.instructions[at].accounts == []
            && after.instructions[at].programIdIndex < |after.accountKeys|
            && after.accountKeys == (if COMPUTE_BUDGET in m.accountKeys then m.accountKeys
                                     else m.accountKeys + [COMPUTE_BUDGET])
            && after.readonlyUnsigned == (if COMPUTE_BUDGET in m.accountKeys then m.readonlyUnsigned
                                          else (m.readonlyUnsigned + 1) % 0x100)
            && ProgramOf(after, at) == COMPUTE_BUDGET
            && (forall i :: 0 <= i < |m.accountKeys| ==>
                i < |after.accountKeys| && after.accountKeys[i] == m.accountKeys[i])
            && (|after.instructions| == |m.instructions| ==>
                at < |m.instructions| && after.instructions == m.instructions[at := after.instructions[at]])
            && (|after.instructions| != |m.instructions| ==>
                after.instructions[..at] + after.instructions[at + 1..] == m.instructions)
  {
    var program := ProgramIndex(m.accountKeys);
    var found := FirstMatch(m.instructions, program, selector);
    at := if found < |m.instructions| then found else if front then 0 else |m.instructions|;
  }

  // ----- The program's side

  /** The instructions sysvar: the transaction's instructions and the index of the current one. */
  datatype Sysvar = Sysvar(message: Message, current: nat)

  /** `compute_unit_price`. */
  function ComputeUnitPrice(s: Sysvar): Result<Option<nat>> {
    if s.current == 0 then Ok(None)
    else if s.current - 1 >= |s.message.instructions| then Err(InvalidInput)
    else
      var ix := s.message.instructions[s.current - 1];
      if ix.programIdIndex >= |s.message.accountKeys| then Err(InvalidInput)
      else if s.message.accountKeys[ix.programIdIndex] != COMPUTE_BUDGET then Err(InvalidInput)
      else if ix.data == [] then Err(Aborted)
      else if ix.data[0] != SET_PRICE then Err(InvalidInput)
      else if |ix.data| != 9 then Err(InvalidInput)
      else Ok(Some(FromLE(ix.data[1..9])))
  }

  /** The data of an instruction that sets a price: its identifier, then 64 bits with the lowest byte first. */
  predicate IsPrice(data: seq<byte>) {
    |data| == 9 && data[0] == 3
  }

  function PriceIn(data: seq<byte>): nat
    requires IsPrice(data)
  {
    Words(Word(data[8], data[7], data[6], data[5]), Word(data[4], data[3], data[2], data[1]))
  }

  /** The data of an instruction that sets a limit: its identifier, then 32 bits with the lowest byte first. */
  predicate IsLimit(data: seq<byte>) {
    |data| == 5 && data[0] == 2
  }

  function LimitIn(data: seq<byte>): nat
    requires IsLimit(data)
  {
    Word(data[4], data[3], data[2], data[1])
  }

  /** What `sendWithRetry` sends: an optional limit, then the price. */
  function Prepared(m: Message, limit: nat, price: nat): Message {
    SetPrice(if limit != 0 then SetLimit(m, limit) else m, price)
  }

  /** Setting an instruction that is not there adds exactly it. */
  lemma SetFresh(m: Message, data: seq<byte>, selector: byte, front: bool)
    requires WellFormed(m) && FirstMatch(m.instructions, ProgramIndex(m.accountKeys), selector) == |m.instructions|
    ensures var after := SetSpec(m, data, selector, front);
            var ix := Instruction(ProgramIndex(m.accountKeys), [], data);
            && after.instructions == (if front then [ix] + m.instructions else m.instructions + [ix])
            && ProgramIndex(after.accountKeys)
                 == ProgramIndex(m.accountKeys) < |after.accountKeys| <= |m.accountKeys| + 1
            && (|after.accountKeys| > |m.accountKeys| ==> ProgramIndex(m.accountKeys) == |m.accountKeys|)
  {}

  /** The price is put immediately before the report, so the program reads back exactly it. */
  lemma PriceReadBack(m: Message, limit: nat, price: nat)
    requires WellFormed(m) && NoBudget(m) && m.instructions != []
    requires price <= U64_MAX && limit <= U32_MAX
    ensures var sent := Prepared(m, limit, price);
            && |sent.instructions| == |m.instructions| + (if limit != 0 then 2 else 1)
            && sent.instructions[1..1 + |m.instructions|] == m.instructions
            && ComputeUnitPrice(Sysvar(sent, 1)) == Ok(Some(price))
  {
    var program := ProgramIndex(m.accountKeys);
    NoneToReplace(m, SET_PRICE);
    if limit != 0 {
      LimitBehind(m, limit);
      PriceInFront(SetLimit(m, limit), program, price);
      assert Prepared(m, limit, price).instructions[1..] == SetLimit(m, limit).instructions;
    } else {
      PriceInFront(m, program, price);
      assert Prepared(m, limit, price).instructions[1..] == m.instructions;
    }
  }

  /** The bytes sent: the price first, in nine of them, and a limit last, in five. */
  lemma PreparedBytes(m: Message, limit: nat, price: nat)
    requires WellFormed(m) && NoBudget(m) && m.instructions != []
    requires price <= U64_MAX && limit <= U32_MAX
    ensures var sent := Prepared(m, limit, price).instructions;
            && |sent| == |m.instructions| + (if limit != 0 then 2 else 1)
            && IsPrice(sent[0].data) && PriceIn(sent[0].data) == price
            && (limit != 0 ==> IsLimit(sent[|sent| - 1].data) && LimitIn(sent[|sent| - 1].data) == limit)
  {
    var program := ProgramIndex(m.accountKeys);
    NoneToReplace(m, SET_PRICE);
    EncodedPrice(price);
    if limit != 0 {
      LimitBehind(m, limit);
      EncodedLimit(limit);
      PriceInFront(SetLimit(m, limit), program, price);
    } else {
      PriceInFront(m, program, price);
    }
  }

  lemma EncodedLimit(limit: nat)
    requires limit <= U32_MAX
    ensures IsLimit(Encode(SET_LIMIT, limit, 4)) && LimitIn(Encode(SET_LIMIT, limit, 4)) == limit
  {
    PowValues();
    LittleEndianRoundTrip(limit, 4);
    LittleEndian4(ToLE(limit, 4));
  }

  lemma EncodedPrice(price: nat)
    requires price <= U64_MAX
    ensures IsPrice(Encode(SET_PRICE, price, 8)) && PriceIn(Encode(SET_PRICE, price, 8)) == price
  {
    PowValues();
    LittleEndianRoundTrip(price, 8);
    LittleEndian8(ToLE(price, 8));
  }

  /** A limit goes behind the other instructions, and is not mistaken for a price. */
  lemma LimitBehind(m: Message, limit: nat)
    requires WellFormed(m) && NoBudget(m) && m.instructions != [] && limit <= U32_MAX
    ensures var (limited, program) := (SetLimit(m, limit), ProgramIndex(m.accountKeys));
            && limited.instructions == m.instructions + [Instruction(program, [], Encode(SET_LIMIT, limit, 4))]
            && program == ProgramIndex(limited.accountKeys) <= U16_MAX && |limited.accountKeys| <= U16_MAX + 1
            && FirstMatch(limited.instructions, program, SET_PRICE) == |limited.instructions|
  {
    var program := ProgramIndex(m.accountKeys);
    NoneToReplace(m, SET_PRICE);
    NoneToReplace(m, SET_LIMIT);
    SetFresh(m, Encode(SET_LIMIT, limit, 4), SET_LIMIT, false);
    NothingAppended(m.instructions, Instruction(program, [], Encode(SET_LIMIT, limit, 4)), program, SET_PRICE);
  }

  lemma NothingAppended(instructions: seq<Instruction>, ix: Instruction, program: nat, selector: byte)
    requires FirstMatch(instructions, program, selector) == |instructions| && !Matches(ix, program, selector)
    ensures FirstMatch(instructions + [ix], program, selector) == |instructions| + 1
  {
    assert forall i :: 0 <= i < |instructions| ==> (instructions + [ix])[i] == instructions[i];
  }

  lemma PriceInFront(m: Message, program: nat, price: nat)
    requires |m.accountKeys| <= U16_MAX + 1 && program == ProgramIndex(m.accountKeys) <= U16_MAX
    requires price <= U64_MAX && FirstMatch(m.instructions, program, SET_PRICE) == |m.instructions|
    ensures var sent := SetPrice(m, price);
            && sent.instructions == [Instruction(program, [], Encode(SET_PRICE, price, 8))] + m.instructions
            && ComputeUnitPrice(Sysvar(sent, 1)) == Ok(Some(price))
  {
    var sent := SetPrice(m, price);
    assert sent.instructions[0] == Instruction(program, [], Encode(SET_PRICE, price, 8));
    assert sent.accountKeys[program] == COMPUTE_BUDGET;
    PriceRead(sent, program, price);
  }

  lemma PriceRead(m: Message, program: nat, price: nat)
    requires price <= U64_MAX && program < |m.accountKeys| && m.accountKeys[program] == COMPUTE_BUDGET
    requires m.instructions != [] && m.instructions[0] == Instruction(program, [], Encode(SET_PRICE, price, 8))
    ensures ComputeUnitPrice(Sysvar(m, 1)) == Ok(Some(price))
  {
    PowValues();
    LittleEndianRoundTrip(price, 8);
    assert Encode(SET_PRICE, price, 8)[1..9] == ToLE(price, 8);
  }

  lemma NoneToReplace(m: Message, selector: byte)
    requires WellFormed(m) && NoBudget(m)
    ensures FirstMatch(m.instructions, ProgramIndex(m.accountKeys), selector) == |m.instructions|
  {
    var program := ProgramIndex(m.accountKeys);
    forall i | 0 <= i < |m.instructions|
      ensures !Matches(m.instructions[i], program, selector)
    {
      assert ProgramOf(m, i) != COMPUTE_BUDGET;
    }
  }

  // ----- Reimbursement

  const LAMPORTS_PER_SIGNATURE: nat := 5000
  const MICRO: nat := 1_000_000
  const GIGA: nat := 1_000_000_000

  /** `calculate_reimbursement_gjuels`, in saturating 64-bit and exact 128-bit arithmetic. */
  function Reimbursement(juelsPerLamport: nat, signatures: nat, price: Option<nat>): (r: nat)
    ensures r <= U64_MAX
  {
    var lamports := match price {
      case None => LAMPORTS_PER_SIGNATURE
      case Some(p) => SaturatingAdd64(LAMPORTS_PER_SIGNATURE, PriorityFee(signatures, p))
    };
    Min(lamports * juelsPerLamport / GIGA, U64_MAX)
  }

  function PriorityFee(signatures: nat, price: nat): nat {
    SaturatingAdd64(Min((25_000 * signatures + 21_000) * price, U64_MAX), MICRO - 1) / MICRO
  }

  /** What the priority fee of `signatures` is at a price, in lamports: the micro-lamports for 25000 units a
      signature and 21000 more, rounded up; or, once rounding them up leaves 64 bits, one fixed amount. */
  ghost predicate FeeFor(signatures: nat, price: nat, fee: nat) {
    var micro := (25_000 * signatures + 21_000) * price;
    if micro + 999_999 <= 0xFFFF_FFFF_FFFF_FFFF then
      micro <= fee * 1_000_000 && (fee > 0 ==> (fee - 1) * 1_000_000 < micro)
    else fee == 18_446_744_073_709
  }

  /** What `lamports` are worth in gjuels: rounded down, or the largest 64-bit amount when that does not fit. */
  ghost predicate WorthGjuels(lamports: nat, juelsPerLamport: nat, gjuels: nat) {
    var juels := lamports * juelsPerLamport;
    if juels < 0x1_0000_0000_0000_0000 * 1_000_000_000 then
      gjuels * 1_000_000_000 <= juels < (gjuels + 1) * 1_000_000_000
    else gjuels == 0xFFFF_FFFF_FFFF_FFFF
  }

  /** The credit of a transmission: one signature at 5000 lamports, and the priority fee of a priced one. */
  ghost predicate Reimburses(juelsPerLamport: nat, signatures: nat, price: Option<nat>, gjuels: nat) {
    match price
    case None => WorthGjuels(5_000, juelsPerLamport, gjuels)
    case Some(p) => exists fee: nat :: FeeFor(signatures, p, fee) && WorthGjuels(5_000 + fee, juelsPerLamport, gjuels)
  }

  lemma CeilingDivision(a: nat, n: nat, q: nat)
    requires n > 0
    ensures q == (a + n - 1) / n <==> a <= q * n && (q > 0 ==> (q - 1) * n < a)
  {
    var c := (a + n - 1) / n;
    assert a + n - 1 == c * n + (a + n - 1) % n;
    Distribute(n, c, 1);
    Distribute(n, q, 1);
    if q != c {
      MulOrder(n, q, c);
      MulOrder(n, c, q);
    }
  }

  lemma FloorDivision(a: nat, n: nat, q: nat)
    requires n > 0
    ensures q == a / n <==> q * n <= a < (q + 1) * n
  {
    var f := a / n;
    assert a == f * n + a % n;
    Distribute(n, q, -1);
    if q != f {
      MulOrder(n, q, f);
      MulOrder(n, f, q);
    }
  }

  lemma PriorityFeeExact(signatures: nat, price: nat, fee: nat)
    ensures FeeFor(signatures, price, fee) <==> fee == PriorityFee(signatures, price)
    ensures PriorityFee(signatures, price) <= 18_446_744_073_709
  {
    CeilingDivision((25_000 * signatures + 21_000) * price, 1_000_000, fee);
  }

  lemma WorthExact(lamports: nat, juelsPerLamport: nat, gjuels: nat)
    ensures WorthGjuels(lamports, juelsPerLamport, gjuels) <==>
              gjuels == Min(lamports * juelsPerLamport / GIGA, U64_MAX)
  {
    var juels := lamports * juelsPerLamport;
    FloorDivision(juels, GIGA, gjuels);
    FloorDivision(juels, GIGA, juels / GIGA);
  }

  /** The computed reimbursement is exactly that credit, whichever of its stages saturates. */
  lemma ReimbursementExact(juelsPerLamport: nat, signatures: nat, price: Option<nat>, gjuels: nat)
    ensures Reimburses(juelsPerLamport, signatures, price, gjuels)
            <==> gjuels == Reimbursement(juelsPerLamport, signatures, price)
  {
    match price
    case None => WorthExact(5_000, juelsPerLamport, gjuels);
    case Some(p) =>
      var fee := PriorityFee(signatures, p);
      PriorityFeeExact(signatures, p, fee);
      WorthExact(5_000 + fee, juelsPerLamport, gjuels);
      forall other: nat | FeeFor(signatures, p, other)
        ensures other == fee
      {
        PriorityFeeExact(signatures, p, other);
      }
  }

  /** No step of the calculation leaves its integer type. */
  lemma ReimbursementNeverWraps(juelsPerLamport: nat, signatures: nat, price: nat)
    requires juelsPerLamport <= U64_MAX && signatures <= U8_MAX + 1 && price <= U64_MAX
    ensures 25_000 * signatures + 21_000 <= U64_MAX
    ensures SaturatingAdd64(LAMPORTS_PER_SIGNATURE, PriorityFee(signatures, price)) * juelsPerLamport < TWO_128
  {
    var lamports := SaturatingAdd64(LAMPORTS_PER_SIGNATURE, PriorityFee(signatures, price));
    MulMonotone(lamports, U64_MAX, juelsPerLamport, U64_MAX);
  }

  /** Paying more, signing more, or a dearer lamport never lowers the reimbursement. */
  lemma ReimbursementMonotone(juels: nat, juels': nat, signatures: nat, signatures': nat, price: nat, price': nat)
    requires juels <= juels' && signatures <= signatures' && price <= price'
    ensures Reimbursement(juels, signatures, Some(price)) <= Reimbursement(juels', signatures', Some(price'))
    ensures Reimbursement(juels, signatures, None) <= Reimbursement(juels', signatures', Some(price'))
  {
    MulMonotone(25_000 * signatures + 21_000, 25_000 * signatures' + 21_000, price, price');
    var (fee, fee') := (PriorityFee(signatures, price), PriorityFee(signatures', price'));
    DivMonotone(SaturatingAdd64(Min((25_000 * signatures + 21_000) * price, U64_MAX), MICRO - 1),
                SaturatingAdd64(Min((25_000 * signatures' + 21_000) * price', U64_MAX), MICRO - 1), MICRO);
    var (l, l') := (SaturatingAdd64(LAMPORTS_PER_SIGNATURE, fee), SaturatingAdd64(LAMPORTS_PER_SIGNATURE, fee'));
    MulMonotone(l, l', juels, juels');
    DivMonotone(l * juels, l' * juels', GIGA);
    MulMonotone(LAMPORTS_PER_SIGNATURE, l', juels, juels');
    DivMonotone(LAMPORTS_PER_SIGNATURE * juels, l' * juels', GIGA);
  }
}

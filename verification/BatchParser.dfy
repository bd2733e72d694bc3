/**
 * Layer 2 transactions and the backward batch parser (pkg/db/naive_parser.go). The cursor may run below zero: bytes
 * before the start of the batch stand for leading zeros that were dropped from it.
 */
module BatchParser {
  import opened ByteStrings
  import opened Outcomes
  import opened Points

  const OP_TRANSFER_POINT := 0
  const OP_SPAWN := 1
  const OP_CONFIGURE_KEYS := 2
  const OP_ESCAPE := 3
  const OP_CANCEL_ESCAPE := 4
  const OP_ADOPT := 5
  const OP_REJECT := 6
  const OP_DETACH := 7
  const OP_SET_MANAGEMENT_PROXY := 8
  const OP_SET_SPAWN_PROXY := 9
  const OP_SET_TRANSFER_PROXY := 10

  const SIGNATURE_LENGTH := 65
  const HEADER_LENGTH := 6 // proxy, ship, opcode

  datatype NaiveTx = NaiveTx(
    eventId: nat,
    intraLogIndex: nat,
    signature: Bytes,
    raw: Bytes,
    ship: Ship,
    proxy: nat,
    opcode: nat,
    targetShip: Ship,
    targetAddress: Address,
    flag: bool,
    encryptionKey: Bytes,
    authKey: Bytes,
    suite: uint32)

  /** A transaction before any field but its position is read. */
  function BlankTx(eventId: nat, index: nat): NaiveTx {
    NaiveTx(eventId, index, Zeros(65), [], 0, 0, 0, 0, ZERO_ADDRESS, false, [], [], 0)
  }

  function OperandLength(opcode: nat): nat {
    match opcode
    case 0 => 20
    case 1 => 24
    case 2 => 68
    case 3 => 4
    case 4 => 4
    case 5 => 4
    case 6 => 4
    case 7 => 4
    case 8 => 20
    case 9 => 20
    case 10 => 20
    case _ => 0
  }

  /** Bytes `i` to `j` of a batch that is preceded by zeros without end. */
  function Window(b: Bytes, i: int, j: int): (w: Bytes)
    requires i <= j <= |b|
    ensures |w| == j - i
  {
    Zeros((j - i) - (Max0(j) - Max0(i))) + b[Max0(i)..Max0(j)]
  }

  /** A single byte; unlike a window, an index below zero reads the first byte of the batch. */
  function ByteAt(b: Bytes, i: int): byte
    requires b != [] && i < |b|
  {
    b[Max0(i)]
  }

  // ---------------------------------------------------------------- one record at the end of a byte string

  function Operands(b: Bytes, end: int, op: byte, tx: NaiveTx): NaiveTx
    requires end <= |b|
  {
    var opcode: nat := op % 0x80;
    var flag := op < 0x80;
    if opcode == OP_TRANSFER_POINT then
      tx.(targetAddress := Window(b, end - 20, end), flag := flag)
    else if opcode == OP_SPAWN then
      tx.(targetShip := FromBE32(Window(b, end - 4, end)), targetAddress := Window(b, end - 24, end - 4))
    else if opcode == OP_CONFIGURE_KEYS then
      tx.(encryptionKey := Window(b, end - 32, end), authKey := Window(b, end - 64, end - 32),
          suite := FromBE32(Window(b, end - 68, end - 64)), flag := flag)
    else if OP_ESCAPE <= opcode <= OP_DETACH then
      tx.(targetShip := FromBE32(Window(b, end - 4, end)))
    else if OP_SET_MANAGEMENT_PROXY <= opcode <= OP_SET_TRANSFER_PROXY then
      tx.(targetAddress := Window(b, end - 20, end))
    else tx
  }

  function LastOp(b: Bytes): byte
    requires |b| >= SIGNATURE_LENGTH
  {
    ByteAt(b, |b| - 71)
  }

  /** How many bytes the last record of `b` takes, counting dropped zeros. */
  function LastLength(b: Bytes): (n: nat)
    requires |b| >= SIGNATURE_LENGTH
    ensures 71 <= n <= 139
  {
    SIGNATURE_LENGTH + HEADER_LENGTH + OperandLength(LastOp(b) % 0x80)
  }

  /** The fields before the operands, read below cursor `start`. */
  function Header(b: Bytes, start: nat, eventId: nat, index: nat): NaiveTx
    requires SIGNATURE_LENGTH <= start <= |b|
  {
    BlankTx(eventId, index).(
    signature := Window(b, start - 65, start),
    proxy := ByteAt(b, start - 66),
    ship := FromBE32(Window(b, start - 70, start - 66)),
    opcode := ByteAt(b, start - 71) % 0x80)
  }

  function LastTx(b: Bytes, eventId: nat, index: nat): NaiveTx
    requires |b| >= SIGNATURE_LENGTH
  {
    Operands(b, |b| - 71, LastOp(b), Header(b, |b|, eventId, index))
    .(raw := Window(b, |b| - LastLength(b), |b| - 65))
  }

  /** The records of `b` from its end to its start; none at all if some signature is cut short. */
  function Records(b: Bytes, eventId: nat, index: nat): Option<seq<NaiveTx>>
    decreases |b|
  {
    if b == [] then Some([])
    else if |b| < SIGNATURE_LENGTH then None
    else
      match Records(b[..Max0(|b| - LastLength(b))], eventId, index + 1)
      case None => None
      case Some(rest) => Some([LastTx(b, eventId, index)] + rest)
  }

  /** The transactions of a batch: a rejected batch has none. */
  function Parsed(batch: Bytes, eventId: nat): seq<NaiveTx> {
    match Records(batch, eventId, 0)
    case None => []
    case Some(txs) => txs
  }

  // ---------------------------------------------------------------- the program

  /** The operand switch: reads the fields of one opcode downwards from cursor `start`. */
  method ReadOperands(batch: Bytes, start: int, op: byte, blank: NaiveTx) returns (tx: NaiveTx, i: int)
    requires start <= |batch|
    ensures tx == Operands(batch, start, op, blank)
    ensures i == start - OperandLength(op % 0x80)
  {
    tx, i := blank, start;
    var j: int;
    var flag := op / 0x80 == 0;
    match op % 0x80 {
      case 0 =>
        i, j := i - 20, i;
        tx := tx.(targetAddress := Window(batch, i, j), flag := flag);
      case 1 =>
        i, j := i - 4, i;
        tx := tx.(targetShip := FromBE32(Window(batch, i, j)));
        i, j := i - 20, i;
        tx := tx.(targetAddress := Window(batch, i, j));
      case 2 =>
        i, j := i - 32, i;
        tx := tx.(encryptionKey := Window(batch, i, j));
        i, j := i - 32, i;
        tx := tx.(authKey := Window(batch, i, j));
        i, j := i - 4, i;
        tx := tx.(suite := FromBE32(Window(batch, i, j)), flag := flag);
      case 3 =>
        i, j := i - 4, i;
        tx := tx.(targetShip := FromBE32(Window(batch, i, j)));
      case 4 =>
        i, j := i - 4, i;
        tx := tx.(targetShip := FromBE32(Window(batch, i, j)));
      case 5 =>
        i, j := i - 4, i;
        tx := tx.(targetShip := FromBE32(Window(batch, i, j)));
      case 6 =>
        i, j := i - 4, i;
        tx := tx.(targetShip := FromBE32(Window(batch, i, j)));
      case 7 =>
        i, j := i - 4, i;
        tx := tx.(targetShip := FromBE32(Window(batch, i, j)));
      case 8 =>
        i, j := i - 20, i;
        tx := tx.(targetAddress := Window(batch, i, j));
      case 9 =>
        i, j := i - 20, i;
        tx := tx.(targetAddress := Window(batch, i, j));
      case 10 =>
        i, j := i - 20, i;
        tx := tx.(targetAddress := Window(batch, i, j));
      case _ =>
    }
  }

  /** One iteration: reads the record below cursor `start` and moves the cursor, possibly below zero. */
  method ParseRecord(batch: Bytes, start: nat, eventId: nat, index: nat) returns (tx: NaiveTx, i: int)
    requires SIGNATURE_LENGTH <= start <= |batch|
    ensures tx == LastTx(batch[..start], eventId, index)
    ensures i == start - LastLength(batch[..start])
  {
    hide Operands, Window, OperandLength;
    var j: int;
    tx := BlankTx(eventId, index);
    i, j := start - 65, start;
    tx := tx.(signature := Window(batch, i, j));
    var mark := i;
    i := i - 1;
    tx := tx.(proxy := ByteAt(batch, i));
    i, j := i - 4, i;
    tx := tx.(ship := FromBE32(Window(batch, i, j)));
    i := i - 1;
    var op := ByteAt(batch, i);
    tx := tx.(opcode := op % 0x80);
    assert tx == Header(batch, start, eventId, index);
    tx, i := ReadOperands(batch, i, op, tx);
    RawWindow(batch, i, mark);
    LastTxInPlace(batch, start, eventId, index, i);
    hide LastTx, Header;
    var padding := -(if i < 0 then i else 0);
    tx := tx.(raw := Zeros(padding) + batch[Max0(i)..mark]);
  }

  method ParseNaiveBatch(batch: Bytes, eventId: nat) returns (txs: seq<NaiveTx>)
    ensures txs == Parsed(batch, eventId)
  {
    txs := [];
    var index := 0;
    var i: int := |batch|;
    assert batch[..|batch|] == batch;
    PrependNone(Records(batch, eventId, 0));
    hide Records, LastTx, LastLength;
    while i > 0
      invariant i <= |batch|
      invariant index == |txs|
      invariant Records(batch, eventId, 0) == Prepend(txs, Records(batch[..Max0(i)], eventId, index))
    {
      var start := i;
      ghost var b := batch[..start];
      if i - 65 < 0 {
        RecordsOfLittle(b, eventId, index);
        return [];
      }
      var tx;
      tx, i := ParseRecord(batch, start, eventId, index);
      RecordsStep(b, eventId, index);
      assert b[..Max0(i)] == batch[..Max0(i)];
      PrependOne(txs, tx, Records(batch[..Max0(i)], eventId, index + 1));
      txs := txs + [tx];
      index := index + 1;
    }
    RecordsOfLittle(batch[..Max0(i)], eventId, index);
  }

  /** One step of the parser. */
  lemma RecordsStep(b: Bytes, eventId: nat, index: nat)
    requires |b| >= SIGNATURE_LENGTH
    ensures Records(b, eventId, index)
         == Prepend([LastTx(b, eventId, index)], Records(b[..Max0(|b| - LastLength(b))], eventId, index + 1))
  {
    hide LastTx, LastLength;
  }

  /** Nothing left ends the batch; less than a signature rejects it. */
  lemma RecordsOfLittle(b: Bytes, eventId: nat, index: nat)
    requires |b| < SIGNATURE_LENGTH
    ensures Records(b, eventId, index) == if b == [] then Some([]) else None
  {
  }

  lemma RawWindow(b: Bytes, i: int, mark: nat)
    requires i <= mark <= |b|
    ensures Zeros(-(if i < 0 then i else 0)) + b[Max0(i)..mark] == Window(b, i, mark)
  {
  }

  /** A window does not see the bytes after its end. */
  lemma WindowOfPrefix(b: Bytes, n: nat, i: int, j: int)
    requires i <= j <= n <= |b|
    ensures Window(b[..n], i, j) == Window(b, i, j)
  {
    assert b[Max0(i)..Max0(j)] == b[..n][Max0(i)..Max0(j)];
  }

  lemma OperandsOfPrefix(b: Bytes, n: nat, end: int, op: byte, tx: NaiveTx)
    requires end <= n <= |b|
    ensures Operands(b[..n], end, op, tx) == Operands(b, end, op, tx)
  {
    WindowOfPrefix(b, n, end - 20, end);
    WindowOfPrefix(b, n, end - 4, end);
    WindowOfPrefix(b, n, end - 24, end - 4);
    WindowOfPrefix(b, n, end - 32, end);
    WindowOfPrefix(b, n, end - 64, end - 32);
    WindowOfPrefix(b, n, end - 68, end - 64);
  }

  lemma HeaderOfPrefix(b: Bytes, start: nat, eventId: nat, index: nat)
    requires SIGNATURE_LENGTH <= start <= |b|
    ensures Header(b[..start], start, eventId, index) == Header(b, start, eventId, index)
  {
    WindowOfPrefix(b, start, start - 65, start);
    WindowOfPrefix(b, start, start - 70, start - 66);
  }

  /** Reading the last record of a prefix through cursors into the whole batch. */
  lemma LastTxInPlace(b: Bytes, start: nat, eventId: nat, index: nat, i: int)
    requires SIGNATURE_LENGTH <= start <= |b|
    requires i == start - 71 - OperandLength(ByteAt(b, start - 71) % 0x80)
    ensures LastTx(b[..start], eventId, index)
         == Operands(b, start - 71, ByteAt(b, start - 71), Header(b, start, eventId, index))
            .(raw := Window(b, i, start - 65))
    ensures i == start - LastLength(b[..start])
  {
    hide Operands, Header, Window;
    OperandsOfPrefix(b, start, start - 71, ByteAt(b, start - 71), Header(b, start, eventId, index));
    HeaderOfPrefix(b, start, eventId, index);
    WindowOfPrefix(b, start, i, start - 65);
  }

  function Prepend(front: seq<NaiveTx>, rest: Option<seq<NaiveTx>>): Option<seq<NaiveTx>> {
    match rest
    case None => None
    case Some(txs) => Some(front + txs)
  }

  lemma PrependNone(rest: Option<seq<NaiveTx>>)
    ensures Prepend([], rest) == rest
  {
    if rest.Some? {
      assert [] + rest.value == rest.value;
    }
  }

  lemma PrependOne(front: seq<NaiveTx>, tx: NaiveTx, rest: Option<seq<NaiveTx>>)
    ensures Prepend(front, Prepend([tx], rest)) == Prepend(front + [tx], rest)
  {
    if rest.Some? {
      assert front + ([tx] + rest.value) == front + [tx] + rest.value;
    }
  }
}

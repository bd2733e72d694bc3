/** The batch parser against the documented record layout. */
module BatchTheorems {
  import opened ByteStrings
  import opened Outcomes
  import opened Points
  import opened BatchParser

  // ---------------------------------------------------------------- the layout

  function OperandBytes(tx: NaiveTx): Bytes {
    if tx.opcode == OP_TRANSFER_POINT then tx.targetAddress
    else if tx.opcode == OP_SPAWN then tx.targetAddress + ToBE32(tx.targetShip)
    else if tx.opcode == OP_CONFIGURE_KEYS then ToBE32(tx.suite) + tx.authKey + tx.encryptionKey
    else if OP_ESCAPE <= tx.opcode <= OP_DETACH then ToBE32(tx.targetShip)
    else if OP_SET_MANAGEMENT_PROXY <= tx.opcode <= OP_SET_TRANSFER_PROXY then tx.targetAddress
    else []
  }

  /** Operands, then the opcode byte whose top bit is free, then ship and proxy. */
  function Layout(tx: NaiveTx, top: bool): Bytes
    requires tx.opcode < 0x80 && tx.proxy < 0x100
  {
    OperandBytes(tx) + [if top then tx.opcode + 0x80 else tx.opcode] + ToBE32(tx.ship) + [tx.proxy]
  }

  predicate HasFlag(opcode: nat) {
    opcode == OP_TRANSFER_POINT || opcode == OP_CONFIGURE_KEYS
  }

  predicate HasAddress(opcode: nat) {
    opcode == OP_TRANSFER_POINT || opcode == OP_SPAWN || OP_SET_MANAGEMENT_PROXY <= opcode <= OP_SET_TRANSFER_PROXY
  }

  predicate HasTarget(opcode: nat) {
    opcode == OP_SPAWN || OP_ESCAPE <= opcode <= OP_DETACH
  }

  /** Fields that the opcode uses have their fixed sizes, the others are blank. */
  predicate FieldsFit(tx: NaiveTx) {
    && |tx.signature| == 65 && tx.opcode < 0x80 && tx.proxy < 0x100
    && (if HasAddress(tx.opcode) then |tx.targetAddress| == 20 else tx.targetAddress == ZERO_ADDRESS)
    && (HasTarget(tx.opcode) || tx.targetShip == 0)
    && (if tx.opcode == OP_CONFIGURE_KEYS then |tx.authKey| == |tx.encryptionKey| == 32
        else tx.authKey == tx.encryptionKey == [] && tx.suite == 0)
    && (HasFlag(tx.opcode) || !tx.flag)
  }

  /** A transaction whose raw bytes are its fields in the documented layout; the top bit is clear when a flag is set. */
  predicate WellFormed(tx: NaiveTx) {
    && FieldsFit(tx)
    && (tx.raw == Layout(tx, false) || tx.raw == Layout(tx, true))
    && (HasFlag(tx.opcode) ==> tx.raw == Layout(tx, !tx.flag))
  }

  lemma HeaderPositions(tx: NaiveTx)
    requires WellFormed(tx)
    ensures |tx.raw| == 6 + OperandLength(tx.opcode)
    ensures var n := OperandLength(tx.opcode);
            && tx.raw[..n] == OperandBytes(tx)
            && tx.raw[n + 5] == tx.proxy && tx.raw[n + 1..n + 5] == ToBE32(tx.ship) && tx.raw[n] % 0x80 == tx.opcode
            && (HasFlag(tx.opcode) ==> (tx.raw[n] < 0x80 <==> tx.flag))
  {
    var n, b := OperandLength(tx.opcode), tx.raw + tx.signature;
    var top := if HasFlag(tx.opcode) then !tx.flag else tx.raw != Layout(tx, false);
    BytesOfLayout(tx, top);
    OpcodeBits(tx.opcode);
    hide Layout, OperandBytes, OperandLength, ToBE32, FieldsFit, WellFormed;
    RawInFront(tx.raw, tx.signature, n);
  }

  lemma OpcodeBits(op: nat)
    requires op < 0x80
    ensures op % 0x80 == op && (op + 0x80) % 0x80 == op
  {
  }

  lemma RawInFront(raw: Bytes, signature: Bytes, n: nat)
    requires n + 6 == |raw|
    ensures var b := raw + signature;
            raw[..n] == b[..n] && raw[n + 1..n + 5] == b[n + 1..n + 5] && raw[n] == b[n] && raw[n + 5] == b[n + 5]
  {
  }

  /** Where the fields of a well-formed transaction are found in its raw bytes. */
  lemma RawPositions(tx: NaiveTx)
    requires WellFormed(tx)
    ensures |tx.raw| >= 6
    ensures var n := |tx.raw| - 6;
            && tx.raw[n + 5] == tx.proxy && Numeric(tx.raw[n + 1..n + 5]) == tx.ship && tx.raw[n] % 0x80 == tx.opcode
            && (tx.opcode == 0 || tx.opcode == 2 ==> (tx.raw[n] < 0x80 <==> tx.flag))
            && (tx.opcode in {0, 8, 9, 10} ==> n == 20 && tx.raw[..20] == tx.targetAddress)
            && (tx.opcode == 1 ==>
                  n == 24 && tx.raw[..20] == tx.targetAddress && Numeric(tx.raw[20..24]) == tx.targetShip)
            && (tx.opcode == 2 ==>
                  n == 68 && Numeric(tx.raw[..4]) == tx.suite && tx.raw[4..36] == tx.authKey
                  && tx.raw[36..68] == tx.encryptionKey)
            && (3 <= tx.opcode <= 7 ==> n == 4 && Numeric(tx.raw[..4]) == tx.targetShip)
            && (tx.opcode > 10 ==> n == 0)
  {
    HeaderPositions(tx);
    NumericBE32(tx.ship);
    NumericBE32(tx.targetShip);
    NumericBE32(tx.suite);
    hide ToBE32, Numeric, Layout;
    var n, o := |tx.raw| - 6, OperandBytes(tx);
    if tx.opcode == 1 {
      assert o[..20] == tx.targetAddress && o[20..] == ToBE32(tx.targetShip);
      assert tx.raw[..20] == o[..20] && tx.raw[20..24] == o[20..];
    } else if tx.opcode == 2 {
      assert o[..4] == ToBE32(tx.suite) && o[4..36] == tx.authKey && o[36..] == tx.encryptionKey;
      assert tx.raw[..4] == o[..4] && tx.raw[4..36] == o[4..36] && tx.raw[36..68] == o[36..];
    }
  }

  lemma NumericBE32(n: uint32)
    ensures Numeric(ToBE32(n)) == n
  {
    FromToBE32(n);
    FromBE32IsNumeric(ToBE32(n));
  }

  /** A batch holds its transactions from the last to the first. */
  function Flatten(txs: seq<NaiveTx>): Bytes {
    if txs == [] then [] else Flatten(txs[1..]) + txs[0].raw + txs[0].signature
  }

  lemma FlattenCons(tx: NaiveTx, rest: seq<NaiveTx>)
    ensures Flatten([tx] + rest) == Flatten(rest) + (tx.raw + tx.signature)
  {
    assert ([tx] + rest)[1..] == rest;
  }

  lemma FlattenOne(tx: NaiveTx)
    ensures Flatten([tx]) == tx.raw + tx.signature
  {
    assert Flatten([]) == [];
  }

  // ---------------------------------------------------------------- windows

  lemma WindowInside(b: Bytes, i: int, j: int)
    requires 0 <= i <= j <= |b|
    ensures Window(b, i, j) == b[i..j]
  {
  }

  lemma WindowSplit(b: Bytes, i: int, k: int, j: int)
    requires i <= k <= j <= |b|
    ensures Window(b, i, k) + Window(b, k, j) == Window(b, i, j)
  {
  }

  lemma WindowOfByte(b: Bytes, i: nat)
    requires i < |b|
    ensures Window(b, i, i + 1) == [ByteAt(b, i)]
  {
  }

  /** A window that lies inside a suffix may be read there. */
  lemma WindowOfSuffix(y: Bytes, x: Bytes, i: int, j: int)
    requires 0 <= i <= j <= |x|
    ensures Window(y + x, |y| + i, |y| + j) == Window(x, i, j)
  {
    assert (y + x)[|y| + i..|y| + j] == x[i..j];
  }

  lemma WindowIndex(b: Bytes, i: int, j: int, m: nat)
    requires i <= i + m < j <= |b|
    ensures Window(b, i, j)[m] == if i + m < 0 then 0 else b[i + m]
  {
  }

  /** Dropping leading zeros does not change any window. */
  lemma WindowOfStripped(b: Bytes, k: nat, i: int, j: int)
    requires k <= |b| && b[..k] == Zeros(k) && 0 <= i <= j <= |b|
    ensures Window(b[k..], i - k, j - k) == Window(b, i, j)
  {
    var c := b[k..];
    var w, v := Window(c, i - k, j - k), Window(b, i, j);
    forall m | 0 <= m < j - i ensures w[m] == v[m] {
      WindowIndex(c, i - k, j - k, m);
      WindowIndex(b, i, j, m);
      if i + m < k {
        assert b[i + m] == b[..k][i + m] == 0;
      } else {
        assert c[i + m - k] == b[i + m];
      }
    }
  }

  // ---------------------------------------------------------------- record lemmas

  /** The windows that `Operands` reads are the same below `e` in `b` as below `f` in `c`. */
  ghost predicate SameBelow(b: Bytes, e: int, c: Bytes, f: int, length: nat)
    requires e <= |b| && f <= |c|
  {
    forall m: int, n: int {:trigger Window(b, m, n)} :: e - length <= m <= n <= e ==>
      Window(b, m, n) == Window(c, m - e + f, n - e + f)
  }

  lemma SameOperands(b: Bytes, e: int, c: Bytes, f: int, op: byte, tx: NaiveTx)
    requires e <= |b| && f <= |c| && SameBelow(b, e, c, f, OperandLength(op % 0x80))
    ensures Operands(b, e, op, tx) == Operands(c, f, op, tx)
  {
    hide Window, FromBE32;
    var opcode: nat := op % 0x80;
    if opcode == OP_SPAWN {
      assert Window(b, e - 4, e) == Window(c, f - 4, f);
      assert Window(b, e - 24, e - 4) == Window(c, f - 24, f - 4);
    } else if opcode == OP_CONFIGURE_KEYS {
      assert Window(b, e - 32, e) == Window(c, f - 32, f);
      assert Window(b, e - 64, e - 32) == Window(c, f - 64, f - 32);
      assert Window(b, e - 68, e - 64) == Window(c, f - 68, f - 64);
    } else if OP_ESCAPE <= opcode <= OP_DETACH {
      assert Window(b, e - 4, e) == Window(c, f - 4, f);
    } else if HasAddress(opcode) {
      assert Window(b, e - 20, e) == Window(c, f - 20, f);
    }
  }

  /** If all windows of the last record and its two single bytes agree, so does the record. */
  lemma SameLastTx(b: Bytes, c: Bytes, eventId: nat, index: nat)
    requires |b| >= SIGNATURE_LENGTH && |c| >= SIGNATURE_LENGTH
    requires LastOp(b) == LastOp(c) && ByteAt(b, |b| - 66) == ByteAt(c, |c| - 66)
    requires SameBelow(b, |b|, c, |c|, LastLength(b))
    ensures LastTx(b, eventId, index) == LastTx(c, eventId, index)
  {
    hide Window, FromBE32, Operands, OperandLength;
    assert SameBelow(b, |b| - 71, c, |c| - 71, OperandLength(LastOp(b) % 0x80));
    SameOperands(b, |b| - 71, c, |c| - 71, LastOp(b), Header(b, |b|, eventId, index));
    assert Window(b, |b| - 65, |b|) == Window(c, |c| - 65, |c|);
    assert Window(b, |b| - 70, |b| - 66) == Window(c, |c| - 70, |c| - 66);
    assert Window(b, |b| - LastLength(b), |b| - 65) == Window(c, |c| - LastLength(c), |c| - 65);
  }

  /** A complete record is read the same whatever precedes it. */
  lemma LastTxOfSuffix(y: Bytes, x: Bytes, eventId: nat, index: nat)
    requires |x| >= 71 && |x| >= LastLength(x)
    ensures LastLength(y + x) == LastLength(x)
    ensures LastTx(y + x, eventId, index) == LastTx(x, eventId, index)
  {
    hide LastTx, OperandLength, Window;
    assert LastOp(y + x) == LastOp(x);
    forall m: int, n: int | |x| - LastLength(x) <= m <= n <= |x|
      ensures Window(x, m, n) == Window(y + x, m + |y|, n + |y|)
    {
      WindowOfSuffix(y, x, m, n);
    }
    assert SameBelow(x, |x|, y + x, |y + x|, LastLength(x));
    SameLastTx(x, y + x, eventId, index);
  }

  /** Dropping leading zeros does not change the record if it does not change its two single bytes. */
  lemma LastTxOfStripped(b: Bytes, k: nat, eventId: nat, index: nat)
    requires k + 65 <= |b| && b[..k] == Zeros(k) && |b| >= LastLength(b)
    requires LastOp(b[k..]) == LastOp(b) && ByteAt(b[k..], |b| - k - 66) == ByteAt(b, |b| - 66)
    ensures LastLength(b[k..]) == LastLength(b)
    ensures LastTx(b[k..], eventId, index) == LastTx(b, eventId, index)
  {
    hide LastTx, OperandLength, Window;
    var c := b[k..];
    forall m: int, n: int | |b| - LastLength(b) <= m <= n <= |b|
      ensures Window(b, m, n) == Window(c, m - k, n - k)
    {
      WindowOfStripped(b, k, m, n);
    }
    assert SameBelow(b, |b|, c, |c|, LastLength(b));
    SameLastTx(b, c, eventId, index);
  }

  /** One step of the parser on a complete last record. */
  lemma RecordsOfSuffix(y: Bytes, x: Bytes, eventId: nat, index: nat)
    requires |x| >= 71 && |x| == LastLength(x)
    ensures Records(y + x, eventId, index) == Prepend([LastTx(x, eventId, index)], Records(y, eventId, index + 1))
  {
    hide LastTx, LastLength, Records;
    LastTxOfSuffix(y, x, eventId, index);
    RecordsStep(y + x, eventId, index);
    assert (y + x)[..|y|] == y;
  }

  lemma LayoutLength(tx: NaiveTx, top: bool)
    requires FieldsFit(tx)
    ensures |Layout(tx, top)| == 6 + OperandLength(tx.opcode)
  {
  }

  /** The pieces of a record laid end to end. */
  lemma Pieces(operands: Bytes, op: byte, ship: Bytes, proxy: byte, signature: Bytes)
    requires |ship| == 4 && |signature| == 65
    ensures var b, n := operands + [op] + ship + [proxy] + signature, |operands|;
            && |b| == n + 71
            && b[..n] == operands && b[n] == op && b[n + 1..n + 5] == ship && b[n + 5] == proxy
            && b[..n + 6] == operands + [op] + ship + [proxy]
            && b[n + 6..] == signature
  {
  }

  lemma BytesOfLayout(tx: NaiveTx, top: bool)
    requires FieldsFit(tx) && tx.raw == Layout(tx, top)
    ensures var b, n := tx.raw + tx.signature, OperandLength(tx.opcode);
            && |b| == n + 71 && |tx.raw| == n + 6
            && b[..n] == OperandBytes(tx)
            && b[n] == (if top then tx.opcode + 0x80 else tx.opcode)
            && b[n + 1..n + 5] == ToBE32(tx.ship)
            && b[n + 5] == tx.proxy
            && b[0..n + 6] == tx.raw
            && b[n + 6..n + 71] == tx.signature
  {
    LayoutLength(tx, top);
    hide OperandBytes, OperandLength, ToBE32;
    Pieces(OperandBytes(tx), if top then tx.opcode + 0x80 else tx.opcode, ToBE32(tx.ship), tx.proxy, tx.signature);
  }

  /** The header of a record in the documented layout reads back. */
  lemma HeaderOfLayout(tx: NaiveTx, top: bool)
    requires FieldsFit(tx) && tx.raw == Layout(tx, top)
    ensures var b, n := tx.raw + tx.signature, OperandLength(tx.opcode);
            && |b| == n + 71
            && LastOp(b) == (if top then tx.opcode + 0x80 else tx.opcode)
            && LastLength(b) == |b|
            && b[..n] == OperandBytes(tx)
            && Window(b, 0, n + 6) == tx.raw
            && Header(b, |b|, tx.eventId, tx.intraLogIndex)
            == BlankTx(tx.eventId, tx.intraLogIndex).(signature := tx.signature, proxy := tx.proxy, ship := tx.ship,
                                                      opcode := tx.opcode)
  {
    hide Layout, OperandBytes, OperandLength, FromBE32, ToBE32, Window, Zeros;
    var n, b := OperandLength(tx.opcode), tx.raw + tx.signature;
    BytesOfLayout(tx, top);
    FromToBE32(tx.ship);
    WindowInside(b, 0, n + 6);
    WindowInside(b, n + 1, n + 5);
    WindowInside(b, n + 6, n + 71);
  }

  /** The operands of a record in the documented layout read back. */
  lemma OperandsOfLayout(tx: NaiveTx, b: Bytes, op: byte, header: NaiveTx)
    requires FieldsFit(tx) && op % 0x80 == tx.opcode && (HasFlag(tx.opcode) ==> (op < 0x80) == tx.flag)
    requires OperandLength(tx.opcode) <= |b| && b[..OperandLength(tx.opcode)] == OperandBytes(tx)
    requires header == BlankTx(tx.eventId, tx.intraLogIndex).(signature := tx.signature, proxy := tx.proxy,
                                                              ship := tx.ship, opcode := tx.opcode)
    ensures Operands(b, OperandLength(tx.opcode), op, header).(raw := tx.raw) == tx
  {
    FromToBE32(tx.targetShip);
    FromToBE32(tx.suite);
    hide FromBE32, ToBE32;
    var n, o := OperandLength(tx.opcode), OperandBytes(tx);
    if tx.opcode == OP_SPAWN {
      assert Window(b, 20, 24) == b[..n][20..24] == ToBE32(tx.targetShip);
      assert Window(b, 0, 20) == b[..n][..20] == tx.targetAddress;
    } else if tx.opcode == OP_CONFIGURE_KEYS {
      assert Window(b, 0, 4) == b[..n][..4] == ToBE32(tx.suite);
      assert Window(b, 4, 36) == b[..n][4..36] == tx.authKey;
      assert Window(b, 36, 68) == b[..n][36..68] == tx.encryptionKey;
    } else {
      assert Window(b, 0, n) == b[..n];
    }
  }

  /** Reading back one well-formed record. */
  lemma LastTxOfLayout(tx: NaiveTx)
    requires WellFormed(tx)
    ensures |tx.raw + tx.signature| == LastLength(tx.raw + tx.signature) == 71 + OperandLength(tx.opcode)
    ensures LastTx(tx.raw + tx.signature, tx.eventId, tx.intraLogIndex) == tx
  {
    hide Operands, OperandBytes, OperandLength, Header, LastLength, LastOp, Window, FromBE32, ToBE32;
    var top := if tx.raw == Layout(tx, false) then false else true;
    var b := tx.raw + tx.signature;
    HeaderOfLayout(tx, top);
    if HasFlag(tx.opcode) && top == tx.flag {
      HeaderOfLayout(tx, !tx.flag);
    }
    OperandsOfLayout(tx, b, LastOp(b), Header(b, |b|, tx.eventId, tx.intraLogIndex));
  }

  // ---------------------------------------------------------------- round trip

  /** Consecutive transactions of one event, the first at position `index`. */
  predicate Numbered(txs: seq<NaiveTx>, eventId: nat, index: nat) {
    forall i :: 0 <= i < |txs| ==> txs[i].eventId == eventId && txs[i].intraLogIndex == index + i
  }

  predicate AllWellFormed(txs: seq<NaiveTx>) {
    forall i :: 0 <= i < |txs| ==> WellFormed(txs[i])
  }

  /** Encoding any well-formed transactions and parsing them gives exactly those transactions. */
  lemma {:induction false} RoundTrip(txs: seq<NaiveTx>, eventId: nat, index: nat)
    requires AllWellFormed(txs) && Numbered(txs, eventId, index)
    ensures Records(Flatten(txs), eventId, index) == Some(txs)
  {
    hide LastTx, LastLength, WellFormed;
    if txs != [] {
      hide Records;
      var y, x := Flatten(txs[1..]), txs[0].raw + txs[0].signature;
      assert txs == [txs[0]] + txs[1..];
      FlattenCons(txs[0], txs[1..]);
      LastTxOfLayout(txs[0]);
      RecordsOfSuffix(y, x, eventId, index);
      RoundTrip(txs[1..], eventId, index + 1);
    }
  }

  lemma {:induction false} FlattenLength(txs: seq<NaiveTx>)
    requires txs != [] && AllWellFormed(txs)
    ensures |Flatten(txs)| >= 71 + OperandLength(txs[|txs| - 1].opcode)
  {
    hide LastLength, OperandLength, WellFormed;
    LastTxOfLayout(txs[0]);
    if |txs| > 1 {
      FlattenLength(txs[1..]);
    }
  }

  lemma RecordsOfOne(c: Bytes, tx: NaiveTx)
    requires SIGNATURE_LENGTH <= |c| <= LastLength(c)
    ensures Records(c, tx.eventId, tx.intraLogIndex) == Some([LastTx(c, tx.eventId, tx.intraLogIndex)])
  {
    hide LastTx, LastLength;
    RecordsStep(c, tx.eventId, tx.intraLogIndex);
    hide Records;
    var last := [LastTx(c, tx.eventId, tx.intraLogIndex)];
    assert Max0(|c| - LastLength(c)) == 0 && c[..0] == [] && last + [] == last;
    RecordsOfLittle([], tx.eventId, tx.intraLogIndex + 1);
  }

  /** A lone transaction, stripped of zeros of its operands. */
  lemma StripOperands(tx: NaiveTx, k: nat)
    requires WellFormed(tx) && k <= OperandLength(tx.opcode)
    requires k <= |tx.raw + tx.signature| && (tx.raw + tx.signature)[..k] == Zeros(k)
    ensures Records((tx.raw + tx.signature)[k..], tx.eventId, tx.intraLogIndex) == Some([tx])
  {
    hide LastTx, WellFormed, OperandLength, Records, LastLength, Zeros;
    var b := tx.raw + tx.signature;
    LastTxOfLayout(tx);
    LastTxOfStripped(b, k, tx.eventId, tx.intraLogIndex);
    RecordsOfOne(b[k..], tx);
  }

  /** A lone transaction, stripped of zeros of its header too. */
  lemma StripHeader(tx: NaiveTx, k: nat)
    requires WellFormed(tx)
    requires OperandLength(tx.opcode) < k <= |tx.raw + tx.signature| && (tx.raw + tx.signature)[..k] == Zeros(k)
    ensures |tx.raw + tx.signature| == OperandLength(tx.opcode) + 71
    ensures Records((tx.raw + tx.signature)[k..], tx.eventId, tx.intraLogIndex) == Some([tx])
       <==> k <= OperandLength(tx.opcode) + 6 && (tx.raw + tx.signature)[k] == 0
  {
    hide LastTx, OperandBytes, Records, OperandLength, LastLength, Zeros, FromBE32, ToBE32;
    var b, n := tx.raw + tx.signature, OperandLength(tx.opcode);
    var c := b[k..];
    LastTxOfLayout(tx);
    ZeroOpcode(tx, k);
    hide WellFormed, Layout, FieldsFit;
    if k > n + 6 {
      RecordsOfLittle(c, tx.eventId, tx.intraLogIndex);
    } else {
      assert c[0] == b[k] == LastOp(c) && LastOp(b) == b[n] == 0;
      RecordsOfOne(c, tx);
      if b[k] == 0 {
        LastTxOfStripped(b, k, tx.eventId, tx.intraLogIndex);
      } else {
        LastHeader(c, tx.eventId, tx.intraLogIndex);
        LastOperandBytes(c, tx.eventId, tx.intraLogIndex);
      }
    }
  }

  /** If the zeros reach into the header, the opcode is 0 with its flag set; if through it, so is the proxy. */
  lemma ZeroOpcode(tx: NaiveTx, k: nat)
    requires WellFormed(tx)
    requires OperandLength(tx.opcode) < k <= |tx.raw + tx.signature| && (tx.raw + tx.signature)[..k] == Zeros(k)
    ensures var b, n := tx.raw + tx.signature, OperandLength(tx.opcode);
            && |b| == n + 71 && b[n] == 0 && tx.opcode == 0 && tx.flag
            && (k >= n + 6 ==> b[n + 5] == 0)
  {
    var b, n := tx.raw + tx.signature, OperandLength(tx.opcode);
    var top := tx.raw != Layout(tx, false);
    BytesOfLayout(tx, top);
    hide Layout, OperandBytes, OperandLength, ToBE32;
    assert b[n] == b[..k][n] == Zeros(k)[n];
    assert k >= n + 6 ==> b[n + 5] == b[..k][n + 5] == Zeros(k)[n + 5];
    assert tx.opcode == 0 && !top;
  }

  /** One well-formed transaction in front of which a stripped remainder of the others is put. */
  lemma PeelFirst(tx: NaiveTx, rest: seq<NaiveTx>, z: Bytes)
    requires WellFormed(tx)
    ensures Records(z + (tx.raw + tx.signature), tx.eventId, tx.intraLogIndex) == Some([tx] + rest)
       <==> Records(z, tx.eventId, tx.intraLogIndex + 1) == Some(rest)
  {
    hide LastTx, LastLength, WellFormed, Records;
    LastTxOfLayout(tx);
    RecordsOfSuffix(z, tx.raw + tx.signature, tx.eventId, tx.intraLogIndex);
    if Records(z, tx.eventId, tx.intraLogIndex + 1).Some? {
      var more := Records(z, tx.eventId, tx.intraLogIndex + 1).value;
      assert ([tx] + more)[1..] == more && ([tx] + rest)[1..] == rest;
    }
  }

  lemma StripOne(tx: NaiveTx, k: nat)
    requires WellFormed(tx) && k <= |tx.raw + tx.signature| && (tx.raw + tx.signature)[..k] == Zeros(k)
    ensures |tx.raw + tx.signature| == OperandLength(tx.opcode) + 71
    ensures Records((tx.raw + tx.signature)[k..], tx.eventId, tx.intraLogIndex) == Some([tx])
       <==> k <= OperandLength(tx.opcode)
            || (k <= OperandLength(tx.opcode) + 6 && (tx.raw + tx.signature)[k] == 0)
  {
    hide LastTx, LastLength, OperandLength, WellFormed, Records, Zeros;
    LastTxOfLayout(tx);
    if k <= OperandLength(tx.opcode) {
      StripOperands(tx, k);
    } else {
      StripHeader(tx, k);
    }
  }

  /** Zeros that all lie before the first transaction are dropped from the others. */
  lemma StripBefore(txs: seq<NaiveTx>, eventId: nat, index: nat, k: nat)
    requires |txs| > 1 && AllWellFormed(txs) && Numbered(txs, eventId, index)
    requires k < |Flatten(txs[1..])|
    ensures |Flatten(txs[1..])| <= |Flatten(txs)| && Flatten(txs)[..k] == Flatten(txs[1..])[..k]
    ensures Flatten(txs)[k] == Flatten(txs[1..])[k]
    ensures Records(Flatten(txs)[k..], eventId, index) == Some(txs)
       <==> Records(Flatten(txs[1..])[k..], eventId, index + 1) == Some(txs[1..])
  {
    hide LastTx, LastLength, OperandLength, WellFormed, Records, Zeros, Flatten;
    var tx, rest := txs[0], txs[1..];
    var y, x := Flatten(rest), tx.raw + tx.signature;
    assert txs == [tx] + rest;
    FlattenCons(tx, rest);
    assert (y + x)[k..] == y[k..] + x;
    PeelFirst(tx, rest, y[k..]);
  }

  /** Zeros that reach into the first transaction leave room for one only. */
  lemma StripInto(txs: seq<NaiveTx>, eventId: nat, index: nat, k: nat)
    requires |txs| > 1 && AllWellFormed(txs) && |Flatten(txs[1..])| <= k <= |Flatten(txs)|
    ensures Records(Flatten(txs)[k..], eventId, index) != Some(txs)
  {
    hide LastTx, LastLength, OperandLength, WellFormed, Records, Zeros, Flatten;
    assert txs == [txs[0]] + txs[1..];
    FlattenCons(txs[0], txs[1..]);
    OnlyOne(txs, Flatten(txs)[k..], eventId, index);
  }

  /**
   * Exactly how many leading zeros may be dropped: as many as the operands of the last transaction have, or some of
   * its header too as long as another zero follows. When all leading zeros are dropped, as the format allows, the
   * batch is read back if and only if they all belong to those operands.
   */
  lemma {:induction false} StripExactly(txs: seq<NaiveTx>, eventId: nat, index: nat, k: nat)
    requires txs != [] && AllWellFormed(txs) && Numbered(txs, eventId, index)
    requires k <= |Flatten(txs)| && Flatten(txs)[..k] == Zeros(k)
    ensures OperandLength(txs[|txs| - 1].opcode) + 6 < |Flatten(txs)|
    ensures Records(Flatten(txs)[k..], eventId, index) == Some(txs)
       <==> k <= OperandLength(txs[|txs| - 1].opcode)
            || (k <= OperandLength(txs[|txs| - 1].opcode) + 6 && Flatten(txs)[k] == 0)
  {
    hide LastTx, LastLength, OperandLength, WellFormed, Records, Zeros, Flatten;
    FlattenLength(txs);
    if |txs| == 1 {
      FlattenOne(txs[0]);
      assert txs == [txs[0]];
      StripOne(txs[0], k);
    } else {
      FlattenLength(txs[1..]);
      if k < |Flatten(txs[1..])| {
        StripBefore(txs, eventId, index, k);
        StripExactly(txs[1..], eventId, index + 1, k);
      } else {
        StripInto(txs, eventId, index, k);
      }
    }
  }

  /** In particular encoding and parsing round-trips after dropping zeros of the last transaction's operands. */
  lemma RoundTripStripped(txs: seq<NaiveTx>, eventId: nat, k: nat)
    requires txs != [] && AllWellFormed(txs) && Numbered(txs, eventId, 0)
    requires k <= OperandLength(txs[|txs| - 1].opcode)
    requires k <= |Flatten(txs)| && Flatten(txs)[..k] == Zeros(k)
    ensures Parsed(Flatten(txs)[k..], eventId) == txs
  {
    hide Records, Flatten, WellFormed, Zeros;
    StripExactly(txs, eventId, 0, k);
  }

  /** Fewer bytes than the first transaction takes cannot hold two. */
  lemma OnlyOne(txs: seq<NaiveTx>, c: Bytes, eventId: nat, index: nat)
    requires |txs| >= 2 && |c| <= |txs[0].raw + txs[0].signature|
    ensures Records(c, eventId, index) != Some(txs)
  {
    hide LastTx, LastLength;
    if |c| >= SIGNATURE_LENGTH {
      RecordsStep(c, eventId, index);
      RecordLength(c, eventId, index);
      RecordsOfLittle([], eventId, index + 1);
    }
  }

  /** Transferring ship 1 to the zero address, by its owner: 24 leading zeros, four of them in the header. */
  function ZeroTransfer(): NaiveTx {
    var tx := BlankTx(0, 0).(ship := 1, opcode := OP_TRANSFER_POINT, flag := true);
    tx.(raw := Layout(tx, false))
  }

  lemma ZeroTransferBytes()
    ensures WellFormed(ZeroTransfer())
    ensures var b := Flatten([ZeroTransfer()]); |b| == 91 && b[..24] == Zeros(24) && b[24] == 1
  {
    var tx := ZeroTransfer();
    FlattenOne(tx);
    hide Flatten;
    var zeros, rest := Zeros(24), [1, 0] + tx.signature;
    assert tx.raw == Zeros(20) + [0] + [0, 0, 0, 1] + [0];
    assert tx.raw + tx.signature == zeros + rest;
    hide Layout;
    var b := Flatten([tx]);
    assert b == zeros + rest;
  }

  /** Read back without its leading zeros, it is not the transaction that was written. */
  lemma StrippedHeaderMisread()
    ensures WellFormed(ZeroTransfer())
    ensures var b := Flatten([ZeroTransfer()]);
            b[..24] == Zeros(24) && b[24] == 1 && Records(b[24..], 0, 0) != Some([ZeroTransfer()])
  {
    ZeroTransferBytes();
    hide Layout, Records, Flatten, WellFormed, Zeros;
    StripExactly([ZeroTransfer()], 0, 0, 24);
  }

  // ---------------------------------------------------------------- composition

  /** `x` is consumed without implicit zeros. */
  predicate ConsumedExactly(x: Bytes, eventId: nat, index: nat) {
    var r := Records(x, eventId, index);
    r.Some? && Flatten(r.value) == x
  }

  /** The shape of an exactly consumed batch: a complete last record after an exactly consumed batch. */
  lemma ExactSplit(x: Bytes, eventId: nat, index: nat)
    requires ConsumedExactly(x, eventId, index) && x != []
    ensures |x| >= LastLength(x) >= 71
    ensures var x' := x[..|x| - LastLength(x)];
            && ConsumedExactly(x', eventId, index + 1)
            && Records(x, eventId, index).value
            == [LastTx(x, eventId, index)] + Records(x', eventId, index + 1).value
  {
    assert |x| >= SIGNATURE_LENGTH;
    hide LastTx, Records;
    RecordsStep(x, eventId, index);
    RecordLength(x, eventId, index);
    hide LastLength;
    var x' := x[..Max0(|x| - LastLength(x))];
    var tx, rest := LastTx(x, eventId, index), Records(x', eventId, index + 1).value;
    FlattenCons(tx, rest);
    hide Flatten;
    assert Flatten(rest) == x';
  }

  /** An exactly consumed batch in front of which another one is put is parsed first, unaffected by it. */
  lemma {:induction false} Composition(y: Bytes, x: Bytes, eventId: nat, index: nat)
    requires ConsumedExactly(x, eventId, index)
    ensures var xs := Records(x, eventId, index).value;
            Records(y + x, eventId, index) == Prepend(xs, Records(y, eventId, index + |xs|))
    decreases |x|
  {
    hide LastTx, LastLength;
    if x == [] {
      assert y + x == y;
      PrependNone(Records(y, eventId, index));
    } else {
      ExactSplit(x, eventId, index);
      hide Records, ConsumedExactly;
      var n := |x| - LastLength(x);
      var tx, rest := LastTx(x, eventId, index), Records(x[..n], eventId, index + 1).value;
      Composition(y, x[..n], eventId, index + 1);
      LastTxOfSuffix(y, x, eventId, index);
      RecordsStep(y + x, eventId, index);
      assert (y + x)[..|y| + n] == y + x[..n];
      PrependAgain(tx, rest, Records(y, eventId, index + 1 + |rest|));
    }
  }

  lemma PrependAgain(tx: NaiveTx, front: seq<NaiveTx>, rest: Option<seq<NaiveTx>>)
    ensures Prepend([tx], Prepend(front, rest)) == Prepend([tx] + front, rest)
  {
    if rest.Some? {
      assert [tx] + (front + rest.value) == [tx] + front + rest.value;
    }
  }

  /** Fewer than 65 bytes too many in front of an exactly consumed batch empty the whole of it, zeros or not. */
  lemma LeadingBytesReject(y: Bytes, x: Bytes, eventId: nat)
    requires ConsumedExactly(x, eventId, 0) && 1 <= |y| < SIGNATURE_LENGTH
    ensures Parsed(y + x, eventId) == []
  {
    hide Records, Flatten;
    Composition(y, x, eventId, 0);
    RecordsOfLittle(y, eventId, |Records(x, eventId, 0).value|);
  }

  /** The position at which parsing starts only shows in the positions of the transactions. */
  function Shifted(txs: seq<NaiveTx>, shift: nat): seq<NaiveTx> {
    seq(|txs|, i requires 0 <= i < |txs| => txs[i].(intraLogIndex := txs[i].intraLogIndex + shift))
  }

  lemma LastTxShift(b: Bytes, eventId: nat, index: nat, shift: nat)
    requires |b| >= SIGNATURE_LENGTH
    ensures LastTx(b, eventId, index + shift) == LastTx(b, eventId, index).(intraLogIndex := index + shift)
    ensures LastTx(b, eventId, index).intraLogIndex == index
  {
  }

  lemma {:induction false} RecordsShift(b: Bytes, eventId: nat, index: nat, shift: nat)
    ensures Records(b, eventId, index + shift).None? <==> Records(b, eventId, index).None?
    ensures Records(b, eventId, index).Some? ==>
              Records(b, eventId, index + shift).value == Shifted(Records(b, eventId, index).value, shift)
    decreases |b|
  {
    hide LastTx, LastLength;
    if |b| >= SIGNATURE_LENGTH {
      RecordsStep(b, eventId, index);
      RecordsStep(b, eventId, index + shift);
      hide Records;
      LastTxShift(b, eventId, index, shift);
      RecordsShift(b[..Max0(|b| - LastLength(b))], eventId, index + 1, shift);
    }
  }

  /**
   * Parsing a batch `y + x`, where `x` is a batch that is consumed exactly: nothing if `y` is rejected, else the
   * transactions of `x` followed by those of `y` at shifted positions.
   */
  lemma ParsedComposition(y: Bytes, x: Bytes, eventId: nat)
    requires ConsumedExactly(x, eventId, 0)
    ensures var xs := Parsed(x, eventId);
            && (Records(y, eventId, 0).None? ==> Parsed(y + x, eventId) == [])
            && (Records(y, eventId, 0).Some? ==> Parsed(y + x, eventId) == xs + Shifted(Parsed(y, eventId), |xs|))
  {
    hide Records;
    Composition(y, x, eventId, 0);
    RecordsShift(y, eventId, 0, |Parsed(x, eventId)|);
  }

  // ---------------------------------------------------------------- conservation

  lemma RecordLength(b: Bytes, eventId: nat, index: nat)
    requires |b| >= SIGNATURE_LENGTH
    ensures |LastTx(b, eventId, index).raw + LastTx(b, eventId, index).signature| == LastLength(b)
    ensures 71 <= LastLength(b) <= 139
    ensures LastTx(b, eventId, index).raw + LastTx(b, eventId, index).signature
         == Window(b, |b| - LastLength(b), |b|)
  {
    var tx := LastTx(b, eventId, index);
    assert tx.signature == Window(b, |b| - 65, |b|);
    WindowSplit(b, |b| - LastLength(b), |b| - 65, |b|);
  }

  /**
   * No byte of an accepted batch is lost, duplicated or reordered: its transactions, last to first, are the batch
   * after at most 74 implicit zeros. Every transaction but the last takes at least 71 bytes of the batch.
   */
  lemma {:induction false} Conservation(b: Bytes, eventId: nat, index: nat)
    requires Records(b, eventId, index).Some?
    ensures var txs := Records(b, eventId, index).value;
            var padding := |Flatten(txs)| - |b|;
            && 0 <= padding <= 74
            && Flatten(txs) == Zeros(padding) + b
            && (txs != [] ==> 71 * (|txs| - 1) + 65 <= |b|)
            && (txs == [] <==> b == [])
    decreases |b|
  {
    hide LastTx, LastLength, Window;
    if b != [] {
      var n := |b| - LastLength(b);
      var b' := b[..Max0(n)];
      RecordsStep(b, eventId, index);
      hide Records;
      Conservation(b', eventId, index + 1);
      RecordLength(b, eventId, index);
      var tx, rest := LastTx(b, eventId, index), Records(b', eventId, index + 1).value;
      FlattenCons(tx, rest);
      WindowAtEnd(b, n);
      if n >= 0 {
        assert b == b' + b[n..];
      } else {
        assert b' == [] && rest == [];
      }
    }
  }

  lemma WindowAtEnd(b: Bytes, n: int)
    requires n <= |b|
    ensures Window(b, n, |b|) == if n >= 0 then b[n..] else Zeros(-n) + b
  {
  }

  // ---------------------------------------------------------------- what the raw bytes say

  /** The ship that the raw bytes name. */
  function RawShip(raw: Bytes): Ship
    requires |raw| >= HEADER_LENGTH
  {
    FromBE32(raw[|raw| - 5..|raw| - 1])
  }

  function RawProxy(raw: Bytes): byte
    requires |raw| >= HEADER_LENGTH
  {
    raw[|raw| - 1]
  }

  /** The raw bytes agree with the proxy that the transaction is taken to act for. */
  predicate ProxyInRaw(tx: NaiveTx) {
    |tx.raw| >= HEADER_LENGTH && RawProxy(tx.raw) == tx.proxy
  }

  /**
   * A signature that no header byte precedes: its first byte serves as proxy and opcode, while its raw bytes are
   * taken to be implicit zeros.
   */
  predicate Headerless(tx: NaiveTx) {
    tx.ship == 0 && tx.opcode == tx.proxy % 0x80 && tx.raw == Zeros(6 + OperandLength(tx.opcode))
  }

  /** What holds of every transaction that comes out of the parser. */
  predicate FromParser(tx: NaiveTx) {
    && FieldsFit(tx)
    && |tx.raw| == 6 + OperandLength(tx.opcode)
    && RawShip(tx.raw) == tx.ship
    && (Headerless(tx) || (ProxyInRaw(tx) && (tx.raw == Zeros(|tx.raw|) ==> tx.opcode == 0)))
  }

  lemma LastFieldsFit(b: Bytes, eventId: nat, index: nat)
    requires |b| >= SIGNATURE_LENGTH
    ensures FieldsFit(LastTx(b, eventId, index))
  {
  }

  lemma LastHeader(b: Bytes, eventId: nat, index: nat)
    requires |b| >= SIGNATURE_LENGTH
    ensures var tx := LastTx(b, eventId, index);
            && tx.opcode == LastOp(b) % 0x80
            && tx.proxy == ByteAt(b, |b| - 66)
            && tx.ship == FromBE32(Window(b, |b| - 70, |b| - 66))
            && tx.raw == Window(b, |b| - LastLength(b), |b| - 65)
  {
    hide Window, FromBE32, OperandLength;
  }

  lemma EndOfThree(front: Bytes, ship: Bytes, proxy: Bytes)
    requires |ship| == 4 && |proxy| == 1
    ensures var raw := front + (ship + proxy);
            raw[|raw| - 5..|raw| - 1] == ship && raw[|raw| - 1] == proxy[0]
  {
  }

  lemma WindowTail(b: Bytes, n: int, mark: int)
    requires n <= mark - 5 && mark <= |b|
    ensures var raw := Window(b, n, mark);
            raw[|raw| - 5..|raw| - 1] == Window(b, mark - 5, mark - 1) && raw[|raw| - 1] == Window(b, mark - 1, mark)[0]
  {
    WindowSplit(b, n, mark - 5, mark);
    WindowSplit(b, mark - 5, mark - 1, mark);
    hide Window;
    EndOfThree(Window(b, n, mark - 5), Window(b, mark - 5, mark - 1), Window(b, mark - 1, mark));
  }

  /** The raw bytes end with the bytes that ship and proxy are read from. */
  lemma LastRaw(b: Bytes, eventId: nat, index: nat)
    requires |b| >= SIGNATURE_LENGTH
    ensures var raw := LastTx(b, eventId, index).raw;
            && |raw| == LastLength(b) - 65
            && raw[|raw| - 5..|raw| - 1] == Window(b, |b| - 70, |b| - 66)
            && raw[|raw| - 1] == Window(b, |b| - 66, |b| - 65)[0]
  {
    LastHeader(b, eventId, index);
    WindowTail(b, |b| - LastLength(b), |b| - 65);
    hide LastTx, LastLength, LastOp, Window, ByteAt, FromBE32;
  }

  lemma WindowBelow(b: Bytes, i: int, j: int)
    requires i <= j <= 0
    ensures Window(b, i, j) == Zeros(j - i)
  {
  }

  lemma ZeroShip()
    ensures FromBE32(Zeros(4)) == 0
  {
    FromBE32IsNumeric(Zeros(4));
    NumericOfZeros(4);
  }

  lemma WindowAt(b: Bytes, i: int, j: int, k: nat)
    requires i <= k < j <= |b|
    ensures Window(b, i, j)[k - i] == b[k]
  {
    WindowIndex(b, i, j, k - i);
  }

  /** A record before whose signature some byte is left names its proxy. */
  lemma HeadedNamesProxy(b: Bytes, eventId: nat, index: nat)
    requires |b| > SIGNATURE_LENGTH
    ensures ProxyInRaw(LastTx(b, eventId, index))
  {
    LastHeader(b, eventId, index);
    LastRaw(b, eventId, index);
    WindowOfByte(b, |b| - 66);
    hide LastTx, FromBE32, OperandLength, Window, LastLength;
  }

  lemma ZeroWindow(b: Bytes, i: int, j: int, k: nat)
    requires i <= k < j <= |b| && Window(b, i, j) == Zeros(j - i)
    ensures b[k] == 0
  {
    WindowAt(b, i, j, k);
    hide Window, Zeros;
    assert Zeros(j - i)[k - i] == 0;
  }

  /** And an opcode other than 0 shows in it. */
  lemma HeadedNamesOpcode(b: Bytes, eventId: nat, index: nat)
    requires |b| > SIGNATURE_LENGTH
    ensures var tx := LastTx(b, eventId, index); tx.raw == Zeros(|tx.raw|) ==> tx.opcode == 0
  {
    LastHeader(b, eventId, index);
    hide LastTx, FromBE32, OperandLength, Window, Zeros, LastLength;
    var tx, n := LastTx(b, eventId, index), |b| - LastLength(b);
    if tx.raw == Zeros(|tx.raw|) {
      ZeroWindow(b, n, |b| - 65, Max0(|b| - 71));
    }
  }

  /** A signature before which nothing is left is headerless. */
  lemma BareIsHeaderless(b: Bytes, eventId: nat, index: nat)
    requires |b| == SIGNATURE_LENGTH
    ensures Headerless(LastTx(b, eventId, index))
  {
    LastHeader(b, eventId, index);
    LastRaw(b, eventId, index);
    hide LastTx, FromBE32, OperandLength, Window, Zeros;
    WindowBelow(b, |b| - LastLength(b), 0);
    WindowBelow(b, -5, -1);
    ZeroShip();
  }

  lemma LastFromParser(b: Bytes, eventId: nat, index: nat)
    requires |b| >= SIGNATURE_LENGTH
    ensures FromParser(LastTx(b, eventId, index))
    ensures |b| > SIGNATURE_LENGTH ==> ProxyInRaw(LastTx(b, eventId, index))
  {
    LastFieldsFit(b, eventId, index);
    LastHeader(b, eventId, index);
    LastRaw(b, eventId, index);
    if |b| > SIGNATURE_LENGTH {
      HeadedNamesProxy(b, eventId, index);
      HeadedNamesOpcode(b, eventId, index);
    } else {
      BareIsHeaderless(b, eventId, index);
    }
    hide LastTx, FieldsFit, FromBE32, OperandLength, Window, Zeros, Headerless, ProxyInRaw;
  }

  /** Every parsed transaction names its ship in its raw bytes, and its proxy too unless its header is missing. */
  lemma {:induction false} ParsedFromParser(b: Bytes, eventId: nat, index: nat)
    requires Records(b, eventId, index).Some?
    ensures var txs := Records(b, eventId, index).value;
            forall i :: 0 <= i < |txs| ==> FromParser(txs[i])
    decreases |b|
  {
    hide LastTx, LastLength, FromParser;
    if b != [] {
      LastFromParser(b, eventId, index);
      ParsedFromParser(b[..Max0(|b| - LastLength(b))], eventId, index + 1);
    }
  }

  /** The operand fields hold the bytes between the start of the record and its header. */
  lemma LastOperandBytes(b: Bytes, eventId: nat, index: nat)
    requires |b| >= SIGNATURE_LENGTH
    ensures OperandBytes(LastTx(b, eventId, index)) == Window(b, |b| - LastLength(b), |b| - 71)
    ensures HasFlag(LastTx(b, eventId, index).opcode) ==> LastTx(b, eventId, index).flag == (LastOp(b) < 0x80)
  {
    hide Window, FromBE32, ToBE32;
    var tx, n, end := LastTx(b, eventId, index), |b| - LastLength(b), |b| - 71;
    if tx.opcode == OP_SPAWN {
      WindowSplit(b, n, end - 4, end);
      ToFromBE32(Window(b, end - 4, end));
    } else if tx.opcode == OP_CONFIGURE_KEYS {
      WindowSplit(b, n, end - 64, end);
      WindowSplit(b, end - 64, end - 32, end);
      ToFromBE32(Window(b, n, end - 64));
    } else if OP_ESCAPE <= tx.opcode <= OP_DETACH {
      ToFromBE32(Window(b, n, end));
    } else if !HasAddress(tx.opcode) {
      WindowSplit(b, n, n, end);
    }
  }

  lemma LastWellFormed(b: Bytes, eventId: nat, index: nat)
    requires |b| >= 71
    ensures WellFormed(LastTx(b, eventId, index))
  {
    var tx, op := LastTx(b, eventId, index), LastOp(b);
    LastFieldsFit(b, eventId, index);
    LastHeader(b, eventId, index);
    LastOperandBytes(b, eventId, index);
    hide LastTx, FieldsFit, OperandBytes, OperandLength, FromBE32, ToBE32;
    hide WellFormed, Layout, Window;
    var n, mark, end := |b| - LastLength(b), |b| - 65, |b| - 71;
    var operands, header := Window(b, n, end), Window(b, end + 1, mark - 1);
    WindowSplit(b, n, end, mark);
    WindowSplit(b, end, end + 1, mark);
    WindowSplit(b, end + 1, mark - 1, mark);
    WindowOfByte(b, end);
    WindowOfByte(b, mark - 1);
    ToFromBE32(header);
    LayoutIs(tx, op, operands + ([op] + (header + [tx.proxy])));
  }

  lemma LayoutIs(tx: NaiveTx, op: byte, raw: Bytes)
    requires FieldsFit(tx) && op % 0x80 == tx.opcode && (HasFlag(tx.opcode) ==> tx.flag == (op < 0x80))
    requires tx.raw == raw == OperandBytes(tx) + ([op] + (ToBE32(tx.ship) + [tx.proxy]))
    ensures WellFormed(tx)
  {
    assert tx.opcode < 0x80 && tx.proxy < 0x100;
    hide FieldsFit, OperandBytes, ToBE32;
    assert raw == OperandBytes(tx) + [op] + ToBE32(tx.ship) + [tx.proxy];
    assert op == if op >= 0x80 then tx.opcode + 0x80 else tx.opcode;
    assert raw == Layout(tx, op >= 0x80);
  }

  /**
   * The converse of the round trip: every parsed transaction is well-formed, with the possible exception of the last
   * one when fewer than six bytes precede its signature.
   */
  lemma {:induction false} ParsedWellFormed(b: Bytes, eventId: nat, index: nat)
    requires Records(b, eventId, index).Some?
    ensures var txs := Records(b, eventId, index).value;
            && Numbered(txs, eventId, index)
            && (forall i :: 0 <= i < |txs| - 1 ==> WellFormed(txs[i]))
            && (txs != [] && |b| >= |Flatten(txs[..|txs| - 1])| + 71 ==> AllWellFormed(txs))
    decreases |b|
  {
    hide LastTx, LastLength, WellFormed;
    if b != [] {
      var n := |b| - LastLength(b);
      var b' := b[..Max0(n)];
      RecordsStep(b, eventId, index);
      hide Records;
      var txs, rest := Records(b, eventId, index).value, Records(b', eventId, index + 1).value;
      LastTxNumbered(b, eventId, index);
      ParsedWellFormed(b', eventId, index + 1);
      RecordLength(b, eventId, index);
      if |b| >= 71 {
        LastWellFormed(b, eventId, index);
      }
      if rest != [] {
        Conservation(b', eventId, index + 1);
        assert txs[..|txs| - 1] == [txs[0]] + rest[..|rest| - 1];
        assert txs[..|txs| - 1][1..] == rest[..|rest| - 1];
      }
    }
  }

  lemma LastTxNumbered(b: Bytes, eventId: nat, index: nat)
    requires |b| >= SIGNATURE_LENGTH
    ensures LastTx(b, eventId, index).eventId == eventId && LastTx(b, eventId, index).intraLogIndex == index
  {
  }
}

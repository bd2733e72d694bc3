/** A replay, from nothing, in which one signed message is accepted twice. */
module HeaderlessReplay {
  import opened ByteStrings
  import opened Outcomes
  import opened Points
  import opened BatchParser
  import opened BatchTheorems
  import opened Signing
  import opened AzimuthEvents
  import opened Runs
  import opened NonceTheorems

  /** A batch that is one signature without header: its first byte doubles as proxy and opcode. */
  function BareTx(signature: Bytes, id: nat): NaiveTx
    requires |signature| == 65
  {
    BlankTx(id, 0).(signature := signature, raw := Zeros(10), proxy := signature[0], opcode := signature[0] % 0x80)
  }

  /** The first byte makes the signature a voting or a transfer key's. */
  predicate IsBare(signature: Bytes) {
    |signature| == 65 && (signature[0] == PROXY_VOTING || signature[0] == PROXY_TRANSFER)
  }

  lemma ParsedBare(signature: Bytes, id: nat)
    requires IsBare(signature)
    ensures Parsed(signature, id) == [BareTx(signature, id)]
  {
    var b := signature;
    assert LastOp(b) == b[0] && LastLength(b) == 75;
    RecordsStep(b, id, 0);
    RecordsOfLittle(b[..Max0(|b| - 75)], id, 1);
    hide Records;
    ZeroShip();
    WindowBelow(b, -10, 0);
    WindowBelow(b, -5, -1);
    WindowBelow(b, -10, -6);
    WindowInside(b, 0, 65);
    assert b[0..65] == b;
    hide Window, FromBE32, Zeros;
    assert Header(b, 65, id, 0) == BlankTx(id, 0).(signature := b, proxy := b[0], opcode := b[0]);
    assert LastTx(b, id, 0) == BareTx(b, id);
  }

  /** Ship 0 is activated and one key gets both its voting and its transfer role. */
  function Prepare(key: Address): seq<Event> {
    [Azimuth(1, Activated(0)), Azimuth(2, ChangedVotingProxy(0, key)), Azimuth(3, ChangedTransferProxy(0, key))]
  }

  function PrepareSteps(key: Address): seq<Step> {
    [L1(1, Activated(0)), L1(2, ChangedVotingProxy(0, key)), L1(3, ChangedTransferProxy(0, key))]
  }

  /** Two batches of one bare signature each. */
  function BareBatches(a: Bytes, b: Bytes): seq<Event> {
    [Naive(4, true, a), Naive(5, true, b)]
  }

  lemma NextSteps(events: seq<Event>)
    ensures AllSteps(events) == if events == [] then [] else StepsOf(events[0]) + AllSteps(events[1..])
  {
  }

  lemma StepsOfBatches(a: Bytes, b: Bytes)
    requires IsBare(a) && IsBare(b)
    ensures AllSteps(BareBatches(a, b)) == [L2(BareTx(a, 4)), L2(BareTx(b, 5))]
  {
    ParsedBare(a, 4);
    ParsedBare(b, 5);
    hide Parsed, BareTx, AllSteps;
    var events := BareBatches(a, b);
    NextSteps(events);
    NextSteps(events[1..]);
    NextSteps(events[1..][1..]);
  }

  lemma StepsOfPrepare(key: Address, more: seq<Event>)
    ensures AllSteps(Prepare(key) + more) == PrepareSteps(key) + AllSteps(more)
  {
    hide AllSteps;
    var e0 := Prepare(key) + more;
    var e1 := e0[1..];
    var e2 := e1[1..];
    NextSteps(e0);
    NextSteps(e1);
    NextSteps(e2);
    assert e2[1..] == more;
  }

  /** The row of ship 0 after the layer 1 events. */
  lemma PreparedWorld(recover: Recovery, key: Address, more: seq<Step>) returns (w: World)
    ensures Receipts(recover, GENESIS, PrepareSteps(key) + more) == Receipts(recover, w, more)
    ensures Run(recover, GENESIS, PrepareSteps(key) + more) == Run(recover, w, more)
    ensures 0 in w.points && w.points[0].nonces == Nonces(0, 0, 0, 0, 0)
    ensures w.points[0].addresses.voting == key == w.points[0].addresses.transfer
  {
    AzimuthStep(GENESIS, Activated(0), 1);
    var w1 := ApplyAzimuth(GENESIS, Activated(0), 1).value;
    AzimuthStep(w1, ChangedVotingProxy(0, key), 2);
    var w2 := ApplyAzimuth(w1, ChangedVotingProxy(0, key), 2).value;
    AzimuthStep(w2, ChangedTransferProxy(0, key), 3);
    w := ApplyAzimuth(w2, ChangedTransferProxy(0, key), 3).value;
    hide ApplyAzimuth, Effects, Receipts, Run;
    var s0 := PrepareSteps(key) + more;
    var s1 := s0[1..];
    var s2 := s1[1..];
    SkipL1(recover, GENESIS, s0, w1);
    SkipL1(recover, w1, s1, w2);
    SkipL1(recover, w2, s2, w);
    assert s2[1..] == more;
  }

  lemma SkipL1(recover: Recovery, w: World, steps: seq<Step>, w': World)
    requires steps != [] && steps[0].L1? && Do(recover, w, steps[0]) == Ok(w')
    ensures Receipts(recover, w, steps) == Receipts(recover, w', steps[1..])
    ensures Run(recover, w, steps) == Run(recover, w', steps[1..])
  {
    hide Do;
  }

  /** The signature is one by `key` of the message that every bare transaction under nonce 0 has. */
  predicate SignsBare(recover: Recovery, key: Signer, signature: Bytes) {
    recover(SignedMessage(0, Zeros(10)), NormalSignature(signature)) == Some(key)
  }

  /** A voting or transfer key may not escape, so such a transaction is counted and otherwise ignored. */
  lemma BareCounts(recover: Recovery, w: World, key: Signer, signature: Bytes, id: nat) returns (w': World)
    requires IsBare(signature) && SignsBare(recover, key, signature)
    requires 0 in w.points && Readable(w.points[0]) && AddressOf(w.points[0], signature[0]) == key
    requires NonceOf(w.points[0], signature[0]) == 0
    ensures Accepted(recover, w, BareTx(signature, id)) && ApplyTx(recover, w, BareTx(signature, id)) == Ok(w')
    ensures w'.points == w.points[0 := BumpNonce(w.points[0], signature[0])]
  {
    hide SignedMessage, NormalSignature;
    w' := ApplyTx(recover, w, BareTx(signature, id)).value;
  }

  lemma TwoReceipts(recover: Recovery, w: World, a: NaiveTx, b: NaiveTx, w': World)
    requires Accepted(recover, w, a) && ApplyTx(recover, w, a) == Ok(w')
    requires Accepted(recover, w', b) && ApplyTx(recover, w', b).Ok?
    ensures Receipts(recover, w, [L2(a), L2(b)]) == [ReceiptOf(recover, w, a), ReceiptOf(recover, w', b)]
    ensures Run(recover, w, [L2(a), L2(b)]).Ok?
  {
    hide ApplyTx, Accepted, ReceiptOf;
    var steps := [L2(a), L2(b)];
    assert steps[1..] == [L2(b)] && [L2(b)][1..] == [];
    var w'' := ApplyTx(recover, w', b).value;
    assert Receipts(recover, w'', []) == [] && Run(recover, w'', []) == Ok(w'');
    RunNext(recover, w, steps, w');
    RunNext(recover, w', [L2(b)], w'');
    assert Receipts(recover, w', [L2(b)]) == [ReceiptOf(recover, w', b)];
  }

  /** The two bare transactions, from a world in which `key` holds both roles of ship 0 under nonce 0. */
  lemma BothAccepted(recover: Recovery, w: World, key: Signer, a: Bytes, b: Bytes)
    requires IsBare(a) && a[0] == PROXY_VOTING && SignsBare(recover, key, a)
    requires IsBare(b) && b[0] == PROXY_TRANSFER && SignsBare(recover, key, b)
    requires 0 in w.points && w.points[0].nonces == Nonces(0, 0, 0, 0, 0)
    requires w.points[0].addresses.voting == key == w.points[0].addresses.transfer
    ensures var steps := [L2(BareTx(a, 4)), L2(BareTx(b, 5))];
            && Run(recover, w, steps).Ok?
            && var r := Receipts(recover, w, steps);
               |r| == 2 && r[0].message == r[1].message && Collide(r[0], r[1])
  {
    var w1 := BareCounts(recover, w, key, a, 4);
    var w2 := BareCounts(recover, w1, key, b, 5);
    TwoReceipts(recover, w, BareTx(a, 4), BareTx(b, 5), w1);
    ReceiptOfFits(recover, w, BareTx(a, 4));
    ReceiptOfFits(recover, w1, BareTx(b, 5));
    hide Receipts, Run, ReceiptOf, Accepted, ApplyTx, SignedMessage, SignsBare;
  }

  /**
   * Freshness does fail, whatever the keys are: if `a` and `b` are signatures by `key` of the bare message, the first
   * beginning with the voting and the second with the transfer role's number, then this replay accepts both, and the
   * two accepted transactions share their message.
   */
  lemma MessageAcceptedTwice(recover: Recovery, key: Signer, a: Bytes, b: Bytes)
    requires IsBare(a) && a[0] == PROXY_VOTING && SignsBare(recover, key, a)
    requires IsBare(b) && b[0] == PROXY_TRANSFER && SignsBare(recover, key, b)
    ensures var events := Prepare(key) + BareBatches(a, b);
            && Fold(recover, GENESIS, events).Ok?
            && var r := Receipts(recover, GENESIS, AllSteps(events));
               |r| == 2 && r[0].message == r[1].message && Collide(r[0], r[1])
  {
    FoldIsRun(recover, GENESIS, Prepare(key) + BareBatches(a, b));
    StepsOfPrepare(key, BareBatches(a, b));
    StepsOfBatches(a, b);
    var w := PreparedWorld(recover, key, [L2(BareTx(a, 4)), L2(BareTx(b, 5))]);
    BothAccepted(recover, w, key, a, b);
    hide Run, Fold, Receipts, AllSteps, Prepare, PrepareSteps, SignsBare, IsBare, Collide, BareBatches;
  }
}

/** Nonce accounting, and the freshness of signed messages that rests on it. */
module NonceTheorems {
  import opened ByteStrings
  import opened Outcomes
  import opened Points
  import opened BatchParser
  import opened BatchTheorems
  import opened Signing
  import AzimuthEvents
  import N = NaiveEffects
  import opened Runs

  /** A row that does not exist has not counted anything. */
  function NonceAt(t: Table, n: Ship, proxy: nat): nat {
    if n in t then NonceOf(t[n], proxy) else 0
  }

  /** Only the zero address is unset, and nobody signs for it; so an accepted transaction acts for one of five roles. */
  lemma AcceptedProxy(recover: Recovery, w: World, tx: NaiveTx)
    requires Accepted(recover, w, tx)
    ensures tx.proxy <= PROXY_TRANSFER && AddressOf(w.points[tx.ship], tx.proxy) != ZERO_ADDRESS
  {
  }

  function Counts(recover: Recovery, w: World, s: Step, n: Ship, proxy: nat): nat {
    if s.L2? && Accepted(recover, w, s.tx) && s.tx.ship == n && s.tx.proxy == proxy then 1 else 0
  }

  lemma L1KeepsNonces(w: World, e: AzimuthEvents.AzimuthEvent, id: nat, w': World, n: Ship, proxy: nat)
    requires ApplyAzimuth(w, e, id) == Ok(w')
    ensures NonceAt(w'.points, n, proxy) == NonceAt(w.points, n, proxy)
  {
    AzimuthStep(w, e, id);
    hide ApplyAzimuth, AzimuthEvents.Effects, FromBE32;
  }

  lemma RevisedKeepsNonces(tx: NaiveTx, p: Point)
    ensures N.Revised(tx, p).nonces == p.nonces
  {
  }

  lemma L2CountsNonce(recover: Recovery, w: World, tx: NaiveTx, w': World, n: Ship, proxy: nat)
    requires proxy <= PROXY_TRANSFER && ApplyTx(recover, w, tx) == Ok(w')
    ensures NonceAt(w'.points, n, proxy) == NonceAt(w.points, n, proxy) + Counts(recover, w, L2(tx), n, proxy)
  {
    hide N.IntendedDiffs, Verdict, N.Aborts, N.Revised, BumpNonce;
    forall p: Point ensures N.Revised(tx, p).nonces == p.nonces {
      RevisedKeepsNonces(tx, p);
    }
  }

  /** How many transactions of role `proxy` of ship `n` a run accepts. */
  ghost function AcceptedCount(recover: Recovery, w: World, steps: seq<Step>, n: Ship, proxy: nat): nat
    decreases |steps|
  {
    if steps == [] || Do(recover, w, steps[0]).Panic? then 0
    else
      Counts(recover, w, steps[0], n, proxy)
      + AcceptedCount(recover, Do(recover, w, steps[0]).value, steps[1..], n, proxy)
  }

  /** Over any run each nonce grows by exactly the number of accepted transactions of its role. */
  lemma {:induction false} NonceAccounting(recover: Recovery, w: World, steps: seq<Step>, n: Ship, proxy: nat)
    requires proxy <= PROXY_TRANSFER && Run(recover, w, steps).Ok?
    ensures NonceAt(Run(recover, w, steps).value.points, n, proxy)
         == NonceAt(w.points, n, proxy) + AcceptedCount(recover, w, steps, n, proxy)
    decreases |steps|
  {
    hide ApplyAzimuth, ApplyTx, NonceAt, Counts;
    if steps != [] {
      var w' := Do(recover, w, steps[0]).value;
      NonceOfStep(recover, w, steps[0], w', n, proxy);
      NonceAccounting(recover, w', steps[1..], n, proxy);
    }
  }

  lemma NonceOfStep(recover: Recovery, w: World, s: Step, w': World, n: Ship, proxy: nat)
    requires proxy <= PROXY_TRANSFER && Do(recover, w, s) == Ok(w')
    ensures NonceAt(w'.points, n, proxy) == NonceAt(w.points, n, proxy) + Counts(recover, w, s, n, proxy)
  {
    hide ApplyAzimuth, ApplyTx, NonceAt;
    match s
    case L1(id, e) => L1KeepsNonces(w, e, id, w', n, proxy);
    case L2(tx) => L2CountsNonce(recover, w, tx, w', n, proxy);
  }

  /** From nothing, a nonce is the number of transactions accepted from its role. */
  lemma NonceIsCount(recover: Recovery, steps: seq<Step>, n: Ship, proxy: nat)
    requires proxy <= PROXY_TRANSFER && Run(recover, GENESIS, steps).Ok?
    requires n in Run(recover, GENESIS, steps).value.points
    ensures NonceOf(Run(recover, GENESIS, steps).value.points[n], proxy)
         == AcceptedCount(recover, GENESIS, steps, n, proxy)
  {
    NonceAccounting(recover, GENESIS, steps, n, proxy);
  }

  /** A transaction without a valid signature changes neither points nor diffs. */
  lemma UnsignedChangesNothing(recover: Recovery, w: World, tx: NaiveTx)
    requires !Accepted(recover, w, tx)
    ensures ApplyTx(recover, w, tx).Panic? || ApplyTx(recover, w, tx) == Ok(w)
  {
  }

  /** An accepted transaction that its opcode's guards do not permit changes its own nonce and nothing else. */
  lemma UnpermittedOnlyCounts(recover: Recovery, w: World, tx: NaiveTx, w': World)
    requires Accepted(recover, w, tx) && !N.Permitted(tx, w.points) && ApplyTx(recover, w, tx) == Ok(w')
    ensures w'.diffs == w.diffs && w'.points.Keys == w.points.Keys
    ensures forall n :: n in w.points && n != tx.ship ==> w'.points[n] == w.points[n]
    ensures SameApartFromNonces(w.points[tx.ship], w'.points[tx.ship])
    ensures forall k: nat :: NonceOf(w'.points[tx.ship], k)
                          == NonceOf(w.points[tx.ship], k) + (if k == tx.proxy then 1 else 0)
  {
    AcceptedProxy(recover, w, tx);
    hide N.Permitted, N.Aborts, Verdict;
  }

  // ---------------------------------------------------------------- freshness

  /** An accepted transaction, the nonce it was signed under, and the message that was signed. */
  datatype Receipt = Receipt(tx: NaiveTx, nonce: uint32, message: Bytes)

  ghost function ReceiptOf(recover: Recovery, w: World, tx: NaiveTx): Receipt
    requires Accepted(recover, w, tx)
  {
    var p := w.points[tx.ship];
    ReadableNonce(p, tx.proxy);
    Receipt(tx, NonceOf(p, tx.proxy), MessageFor(tx, p))
  }

  /** The receipts of a run, in order. */
  ghost function Receipts(recover: Recovery, w: World, steps: seq<Step>): seq<Receipt>
    decreases |steps|
  {
    if steps == [] || Do(recover, w, steps[0]).Panic? then []
    else
      (if steps[0].L2? && Accepted(recover, w, steps[0].tx) then [ReceiptOf(recover, w, steps[0].tx)] else [])
      + Receipts(recover, Do(recover, w, steps[0]).value, steps[1..])
  }

  lemma ReceiptsNext(recover: Recovery, w: World, steps: seq<Step>, w': World)
    requires steps != [] && Do(recover, w, steps[0]) == Ok(w')
    ensures Receipts(recover, w, steps)
         == (if steps[0].L2? && Accepted(recover, w, steps[0].tx) then [ReceiptOf(recover, w, steps[0].tx)] else [])
            + Receipts(recover, w', steps[1..])
  {
    hide Do, Accepted, ReceiptOf;
  }

  ghost predicate ReceiptFits(r: Receipt, t: Table) {
    && r.tx.proxy <= PROXY_TRANSFER
    && r.nonce >= NonceAt(t, r.tx.ship, r.tx.proxy)
    && r.message == SignedMessage(r.nonce, r.tx.raw)
  }

  lemma ReceiptOfFits(recover: Recovery, w: World, tx: NaiveTx)
    requires Accepted(recover, w, tx)
    ensures ReceiptFits(ReceiptOf(recover, w, tx), w.points)
    ensures ReceiptOf(recover, w, tx).tx == tx
    ensures ReceiptOf(recover, w, tx).nonce == NonceAt(w.points, tx.ship, tx.proxy)
  {
    AcceptedProxy(recover, w, tx);
  }

  /** Receipts are signed under nonces that are not yet used when the run starts. */
  lemma {:induction false} ReceiptsFit(recover: Recovery, w: World, steps: seq<Step>)
    ensures forall i :: 0 <= i < |Receipts(recover, w, steps)| ==> ReceiptFits(Receipts(recover, w, steps)[i], w.points)
    decreases |steps|
  {
    hide ApplyAzimuth, ApplyTx, NonceAt, ReceiptOf, Accepted, SignedMessage;
    if steps != [] && Do(recover, w, steps[0]).Ok? {
      var w' := Do(recover, w, steps[0]).value;
      if steps[0].L2? && Accepted(recover, w, steps[0].tx) {
        ReceiptOfFits(recover, w, steps[0].tx);
      }
      var rest := Receipts(recover, w', steps[1..]);
      ReceiptsFit(recover, w', steps[1..]);
      forall i | 0 <= i < |rest| ensures ReceiptFits(rest[i], w.points) {
        NonceOfStep(recover, w, steps[0], w', rest[i].tx.ship, rest[i].tx.proxy);
      }
    }
  }

  /** Two accepted transactions of one role never share a nonce: the later one has the larger. */
  lemma {:induction false} NoncesGrow(recover: Recovery, w: World, steps: seq<Step>, i: nat, j: nat)
    requires i < j < |Receipts(recover, w, steps)|
    requires Receipts(recover, w, steps)[i].tx.ship == Receipts(recover, w, steps)[j].tx.ship
    requires Receipts(recover, w, steps)[i].tx.proxy == Receipts(recover, w, steps)[j].tx.proxy
    ensures Receipts(recover, w, steps)[i].nonce < Receipts(recover, w, steps)[j].nonce
    decreases |steps|
  {
    hide ApplyAzimuth, ApplyTx, NonceAt, ReceiptOf, Accepted, SignedMessage;
    var w' := Do(recover, w, steps[0]).value;
    var rest := Receipts(recover, w', steps[1..]);
    if steps[0].L2? && Accepted(recover, w, steps[0].tx) {
      var tx := steps[0].tx;
      var all := [ReceiptOf(recover, w, tx)] + rest;
      assert Receipts(recover, w, steps) == all;
      assert all[j] == rest[j - 1];
      if i == 0 {
        ReceiptOfFits(recover, w, tx);
        ReceiptsFit(recover, w', steps[1..]);
        NonceOfStep(recover, w, steps[0], w', tx.ship, tx.proxy);
      } else {
        assert all[i] == rest[i - 1];
        NoncesGrow(recover, w', steps[1..], i - 1, j - 1);
      }
    } else {
      assert Receipts(recover, w, steps) == rest;
      NoncesGrow(recover, w', steps[1..], i, j);
    }
  }

  /** The one way to reuse a message: two headerless transactions, one for the voting and one for the transfer role. */
  predicate Collide(a: Receipt, b: Receipt) {
    && Headerless(a.tx) && Headerless(b.tx) && a.nonce == b.nonce
    && {a.tx.proxy, b.tx.proxy} == {PROXY_VOTING, PROXY_TRANSFER}
  }

  /** Transactions out of the parser with the same raw bytes act for the same ship, and for the same role or collide. */
  lemma SameRaw(a: NaiveTx, b: NaiveTx)
    requires FromParser(a) && FromParser(b) && a.raw == b.raw
    requires a.proxy <= PROXY_TRANSFER && b.proxy <= PROXY_TRANSFER
    ensures a.ship == b.ship
    ensures a.proxy == b.proxy
         || (Headerless(a) && Headerless(b) && {a.proxy, b.proxy} == {PROXY_VOTING, PROXY_TRANSFER})
  {
    hide FieldsFit, FromBE32;
    if a.proxy != b.proxy {
      var n := |a.raw|;
      if Headerless(a) {
        assert a.raw == Zeros(n) && a.raw[n - 1] == 0;
      }
      if Headerless(b) {
        assert b.raw == Zeros(n) && b.raw[n - 1] == 0;
      }
    }
  }

  /**
   * Whole-run freshness, exactly: over any run of both layers, from any world, two accepted transactions that came out
   * of the parser were signed over the same message if and only if they collide as headerless transactions.
   */
  lemma MessageFreshness(recover: Recovery, w: World, steps: seq<Step>, i: nat, j: nat)
    requires i < j < |Receipts(recover, w, steps)|
    requires FromParser(Receipts(recover, w, steps)[i].tx) && FromParser(Receipts(recover, w, steps)[j].tx)
    ensures var a, b := Receipts(recover, w, steps)[i], Receipts(recover, w, steps)[j];
            a.message == b.message <==> Collide(a, b)
  {
    var a, b := Receipts(recover, w, steps)[i], Receipts(recover, w, steps)[j];
    ReceiptsFit(recover, w, steps);
    assert ReceiptFits(a, w.points) && ReceiptFits(b, w.points);
    hide SignedMessage, FromParser, NonceAt;
    if a.message == b.message {
      MessageInjective(a.nonce, a.tx.raw, b.nonce, b.tx.raw);
      SameRaw(a.tx, b.tx);
      if a.tx.proxy == b.tx.proxy {
        NoncesGrow(recover, w, steps, i, j);
      }
    } else if Collide(a, b) {
      CollidingRaw(a.tx, b.tx);
    }
  }

  lemma CollidingRaw(a: NaiveTx, b: NaiveTx)
    requires Headerless(a) && Headerless(b) && {a.proxy, b.proxy} == {PROXY_VOTING, PROXY_TRANSFER}
    ensures a.raw == b.raw
  {
    assert a.proxy in {PROXY_VOTING, PROXY_TRANSFER} && b.proxy in {PROXY_VOTING, PROXY_TRANSFER};
  }

  // ---------------------------------------------------------------- freshness of replays

  lemma {:induction false} ReceiptsAreSteps(recover: Recovery, w: World, steps: seq<Step>, i: nat)
    requires i < |Receipts(recover, w, steps)|
    ensures exists k :: 0 <= k < |steps| && steps[k] == L2(Receipts(recover, w, steps)[i].tx)
    decreases |steps|
  {
    hide ApplyAzimuth, ApplyTx, Accepted, MessageFor;
    var w' := Do(recover, w, steps[0]).value;
    var rest := Receipts(recover, w', steps[1..]);
    var head := if steps[0].L2? && Accepted(recover, w, steps[0].tx) then [ReceiptOf(recover, w, steps[0].tx)] else [];
    assert Receipts(recover, w, steps) == head + rest;
    if i < |head| {
      assert steps[0] == L2(head[i].tx);
    } else {
      ReceiptsAreSteps(recover, w', steps[1..], i - |head|);
      var k :| 0 <= k < |steps[1..]| && steps[1..][k] == L2(rest[i - |head|].tx);
      assert steps[k + 1] == L2(rest[i - |head|].tx);
    }
  }

  lemma {:induction false} StepsFromParser(events: seq<Event>)
    ensures forall k :: 0 <= k < |AllSteps(events)| && AllSteps(events)[k].L2? ==> FromParser(AllSteps(events)[k].tx)
  {
    hide FromParser;
    if events != [] {
      match events[0] {
        case Azimuth(id, e) =>
        case Naive(id, isBatch, data) =>
          if Records(data, id, 0).Some? {
            ParsedFromParser(data, id, 0);
          }
      }
      hide Parsed;
      StepsFromParser(events[1..]);
    }
  }

  /** In any replay of any events, over any two accepted transactions: same message if and only if they collide. */
  lemma ReplayFreshness(recover: Recovery, w: World, events: seq<Event>, i: nat, j: nat)
    requires i < j < |Receipts(recover, w, AllSteps(events))|
    ensures var a, b := Receipts(recover, w, AllSteps(events))[i], Receipts(recover, w, AllSteps(events))[j];
            a.message == b.message <==> Collide(a, b)
  {
    hide FromParser, Collide, Do;
    var steps := AllSteps(events);
    StepsFromParser(events);
    ReceiptsAreSteps(recover, w, steps, i);
    ReceiptsAreSteps(recover, w, steps, j);
    MessageFreshness(recover, w, steps, i, j);
  }

  lemma CollidersLackProxy(a: Receipt, b: Receipt)
    ensures Collide(a, b) ==> !ProxyInRaw(a.tx)
  {
    if Collide(a, b) {
      assert a.tx.proxy in {PROXY_VOTING, PROXY_TRANSFER};
    }
  }

  /** So messages are pairwise distinct in every replay in which no accepted transaction lacks its proxy byte. */
  lemma AllFresh(recover: Recovery, w: World, events: seq<Event>)
    requires forall k :: 0 <= k < |AllSteps(events)| && AllSteps(events)[k].L2? ==> ProxyInRaw(AllSteps(events)[k].tx)
    ensures var r := Receipts(recover, w, AllSteps(events));
            forall i, j :: 0 <= i < j < |r| ==> r[i].message != r[j].message
  {
    hide FromParser, Do;
    var r := Receipts(recover, w, AllSteps(events));
    forall i, j | 0 <= i < j < |r| ensures r[i].message != r[j].message {
      ReplayFreshness(recover, w, events, i, j);
      ReceiptsAreSteps(recover, w, AllSteps(events), i);
      CollidersLackProxy(r[i], r[j]);
    }
  }
}

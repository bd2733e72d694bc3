/** Outstanding escape requests. */
module Escapes {
  import opened ByteStrings
  import opened Outcomes
  import opened Points
  import opened BatchParser
  import opened BatchTheorems
  import opened Signing
  import opened AzimuthEvents
  import N = NaiveEffects
  import opened Runs

  /** Without an outstanding request, the requested sponsor is 0. */
  ghost predicate EscapesConsistent(t: Table) {
    forall n :: n in t && !t[n].isEscapeRequested ==> t[n].escapeRequestedTo == 0
  }

  lemma ConsistentAfterL1(w: World, e: AzimuthEvent, id: nat, w': World)
    requires EscapesConsistent(w.points) && ApplyAzimuth(w, e, id) == Ok(w')
    ensures EscapesConsistent(w'.points)
  {
    AzimuthStep(w, e, id);
    hide ApplyAzimuth, Effects, FromBE32;
    forall n | n in w'.points && !w'.points[n].isEscapeRequested
      ensures w'.points[n].escapeRequestedTo == 0
    {
      assert n in w.points && !w.points[n].isEscapeRequested ==> w.points[n].escapeRequestedTo == 0;
    }
  }

  lemma ConsistentAfterL2(recover: Recovery, w: World, tx: NaiveTx, w': World)
    requires EscapesConsistent(w.points) && ApplyTx(recover, w, tx) == Ok(w')
    ensures EscapesConsistent(w'.points)
  {
    hide N.IntendedDiffs, Verdict, N.Aborts;
    forall n | n in w'.points && !w'.points[n].isEscapeRequested
      ensures w'.points[n].escapeRequestedTo == 0
    {
      assert n in w.points && !w.points[n].isEscapeRequested ==> w.points[n].escapeRequestedTo == 0;
    }
  }

  /** Both layers keep escape requests consistent over any run. */
  lemma {:induction false} EscapesStayConsistent(recover: Recovery, w: World, steps: seq<Step>)
    requires EscapesConsistent(w.points) && Run(recover, w, steps).Ok?
    ensures EscapesConsistent(Run(recover, w, steps).value.points)
    decreases |steps|
  {
    hide ApplyAzimuth, ApplyTx, EscapesConsistent;
    if steps != [] {
      var w' := Do(recover, w, steps[0]).value;
      match steps[0] {
        case L1(id, e) => ConsistentAfterL1(w, e, id, w');
        case L2(tx) => ConsistentAfterL2(recover, w, tx, w');
      }
      EscapesStayConsistent(recover, w', steps[1..]);
    }
  }

  /** The target has a request outstanding, and to this source. */
  predicate ReallyRequested(tx: NaiveTx, t: Table) {
    tx.targetShip in t && t[tx.targetShip].isEscapeRequested && t[tx.targetShip].escapeRequestedTo == tx.ship
  }

  /**
   * Although the guard only compares the requested sponsor, an adoption or rejection that takes effect in a reachable
   * table answers a request really made to the source, unless the source is ship 0 and the target has none.
   */
  lemma AnswersRealRequest(recover: Recovery, steps: seq<Step>, tx: NaiveTx)
    requires Run(recover, GENESIS, steps).Ok?
    requires tx.opcode == OP_ADOPT || tx.opcode == OP_REJECT
    requires tx.ship in Run(recover, GENESIS, steps).value.points
    requires N.Permitted(tx, Run(recover, GENESIS, steps).value.points)
    ensures var t := Run(recover, GENESIS, steps).value.points;
            ReallyRequested(tx, t) <==> !(tx.ship == 0 && !t[tx.targetShip].isEscapeRequested)
  {
    EscapesStayConsistent(recover, GENESIS, steps);
  }

  // ---------------------------------------------------------------- the exception is reachable

  /** Ship 0 adopts `n` by its management role, in a record of the documented layout. */
  function Adoption(n: Ship, signature: Bytes): NaiveTx {
    var tx := BlankTx(4, 0).(signature := signature, proxy := PROXY_MANAGEMENT, opcode := OP_ADOPT, targetShip := n);
    tx.(raw := Layout(tx, false))
  }

  function AdoptionBatch(n: Ship, signature: Bytes): Bytes {
    Adoption(n, signature).raw + signature
  }

  lemma ParsedAdoption(n: Ship, signature: Bytes)
    requires |signature| == 65
    ensures Parsed(AdoptionBatch(n, signature), 4) == [Adoption(n, signature)]
  {
    var tx := Adoption(n, signature);
    assert WellFormed(tx);
    hide Records, Flatten, Layout, WellFormed;
    FlattenOne(tx);
    RoundTrip([tx], 4, 0);
  }

  /** Ship 0 is activated and given a manager, and `parent` spawns `n`. */
  function Prelude(key: Address, parent: Ship, n: Ship): seq<Event> {
    [Azimuth(1, Activated(0)), Azimuth(2, ChangedManagementProxy(0, key)), Azimuth(3, Spawned(parent, n))]
  }

  lemma AfterPrelude(recover: Recovery, key: Address, parent: Ship, n: Ship) returns (w: World)
    requires n != 0
    ensures Fold(recover, GENESIS, Prelude(key, parent, n)) == Ok(w)
    ensures 0 in w.points && w.points[0].addresses.management == key && w.points[0].nonces == Nonces(0, 0, 0, 0, 0)
    ensures n in w.points && w.points[n] == DEFAULT_ROW.(hasSponsor := true, sponsor := parent)
  {
    var events := Prelude(key, parent, n);
    AzimuthStep(GENESIS, Activated(0), 1);
    var w1 := ApplyAzimuth(GENESIS, Activated(0), 1).value;
    AzimuthStep(w1, ChangedManagementProxy(0, key), 2);
    var w2 := ApplyAzimuth(w1, ChangedManagementProxy(0, key), 2).value;
    AzimuthStep(w2, Spawned(parent, n), 3);
    w := ApplyAzimuth(w2, Spawned(parent, n), 3).value;
    hide ApplyAzimuth, Effects, Fold;
    FoldNext(recover, GENESIS, events, w1);
    FoldNext(recover, w1, events[1..], w2);
    FoldNext(recover, w2, events[2..], w);
    FoldNothing(recover, w);
    assert events[1..][1..] == events[2..] && events[2..][1..] == [];
  }

  /**
   * The exception of `AnswersRealRequest` is reachable in a replay from nothing, whatever the keys are: if `signature`
   * is one by `key` of this adoption, then a point that never asked for it loses its sponsor to ship 0.
   */
  lemma UnaskedAdoption(recover: Recovery, key: Signer, parent: Ship, n: Ship, signature: Bytes)
    requires n != 0 && |signature| == 65
    requires recover(SignedMessage(0, Adoption(n, signature).raw), NormalSignature(signature)) == Some(key)
    ensures var events := Prelude(key, parent, n);
            var before := Fold(recover, GENESIS, events);
            var after := Fold(recover, GENESIS, events + [Naive(4, true, AdoptionBatch(n, signature))]);
            && before.Ok? && after.Ok? && n in before.value.points && n in after.value.points
            && !before.value.points[n].isEscapeRequested && before.value.points[n].sponsor == parent
            && after.value.points[n] == before.value.points[n].(sponsor := 0)
  {
    var tx, data := Adoption(n, signature), AdoptionBatch(n, signature);
    var w := AfterPrelude(recover, key, parent, n);
    ParsedAdoption(n, signature);
    hide Prelude, Parsed, AdoptionBatch, Layout, SignedMessage, NormalSignature, Fold;
    FoldConcat(recover, GENESIS, Prelude(key, parent, n), [Naive(4, true, data)]);
    LoneTx(recover, w, 4, data, tx);
    Unasked(recover, w, tx, key);
  }

  /** An adoption by ship 0 of a point without request. */
  lemma Unasked(recover: Recovery, w: World, tx: NaiveTx, key: Signer)
    requires tx.ship == 0 && tx.proxy == PROXY_MANAGEMENT && tx.opcode == OP_ADOPT && tx.targetShip != 0
    requires 0 in w.points && w.points[0].nonces == Nonces(0, 0, 0, 0, 0) && w.points[0].addresses.management == key
    requires tx.targetShip in w.points && Readable(w.points[tx.targetShip])
    requires !w.points[tx.targetShip].isEscapeRequested && w.points[tx.targetShip].escapeRequestedTo == 0
    requires w.points[tx.targetShip].hasSponsor
    requires recover(SignedMessage(0, tx.raw), NormalSignature(tx.signature)) == Some(key)
    ensures ApplyTx(recover, w, tx).Ok? && tx.targetShip in ApplyTx(recover, w, tx).value.points
    ensures ApplyTx(recover, w, tx).value.points[tx.targetShip] == w.points[tx.targetShip].(sponsor := 0)
  {
    hide SignedMessage, NormalSignature;
    assert Verdict(recover, tx, w.points[0]) == Ok(true);
    N.IntendedRow(tx, w.points, tx.targetShip);
    hide Verdict, N.Intended, N.IntendedDiffs, BumpNonce;
  }
}

/** Both layers as one deterministic machine: single steps, events, and whole runs. */
module Runs {
  import opened ByteStrings
  import opened Outcomes
  import opened Points
  import opened Diffs
  import opened BatchParser
  import opened Signing
  import opened AzimuthEvents
  import NaiveEffects

  datatype World = World(points: Table, diffs: seq<Diff>)

  const GENESIS := World(map[], [])

  /** A layer 1 event, or one transaction of a layer 2 batch. */
  datatype Step = L1(eventId: nat, event: AzimuthEvent) | L2(tx: NaiveTx)

  /** Executes an event's statement and saves its diffs. */
  function ApplyAzimuth(w: World, e: AzimuthEvent, eventId: nat): Result<World> {
    match Effects(e, eventId, w.points)
    case Panic => Panic
    case Ok(effect) => Commit(w, effect.queries, effect.diffs)
  }

  function Commit(w: World, queries: seq<Query>, diffs: seq<Diff>): Result<World> {
    match ExecAll(w.points, queries)
    case Panic => Panic
    case Ok(t) =>
      match SaveDiffs(t, w.diffs, diffs)
      case Panic => Panic
      case Ok(log) => Ok(World(t, log))
  }

  /** Whether a transaction is accepted: its source exists and signed it. */
  predicate Accepted(recover: Recovery, w: World, tx: NaiveTx) {
    && GetPoint(w.points, tx.ship).Ok?
    && Verdict(recover, tx, w.points[tx.ship]) == Ok(true)
  }

  /** A transaction with a bad signature is skipped; an accepted one makes its intended change. */
  function ApplyTx(recover: Recovery, w: World, tx: NaiveTx): Result<World> {
    match GetPoint(w.points, tx.ship)
    case Panic => Panic
    case Ok(p) =>
      match Verdict(recover, tx, p)
      case Panic => Panic
      case Ok(false) => Ok(w)
      case Ok(true) =>
        if NaiveEffects.Aborts(tx, w.points) then Panic
        else Ok(World(NaiveEffects.Intended(tx, w.points), w.diffs + NaiveEffects.IntendedDiffs(tx, w.points)))
  }

  function Do(recover: Recovery, w: World, s: Step): Result<World> {
    match s
    case L1(id, e) => ApplyAzimuth(w, e, id)
    case L2(tx) => ApplyTx(recover, w, tx)
  }

  function Run(recover: Recovery, w: World, steps: seq<Step>): Result<World>
    decreases |steps|
  {
    if steps == [] then Ok(w)
    else
      match Do(recover, w, steps[0])
      case Panic => Panic
      case Ok(w') => Run(recover, w', steps[1..])
  }

  lemma RunNext(recover: Recovery, w: World, steps: seq<Step>, w': World)
    requires steps != [] && Do(recover, w, steps[0]) == Ok(w')
    ensures Run(recover, w, steps) == Run(recover, w', steps[1..])
  {
    hide Do;
  }

  lemma {:induction false} RunConcat(recover: Recovery, w: World, a: seq<Step>, b: seq<Step>)
    ensures Run(recover, w, a + b)
         == match Run(recover, w, a) { case Panic => Panic case Ok(w') => Run(recover, w', b) }
    decreases |a|
  {
    hide Do;
    if a == [] {
      assert a + b == b;
    } else {
      assert (a + b)[1..] == a[1..] + b;
      if Do(recover, w, a[0]).Ok? {
        RunConcat(recover, Do(recover, w, a[0]).value, a[1..], b);
      }
    }
  }

  // ---------------------------------------------------------------- events

  /** An event log: of the Azimuth contract, or of the Naive contract, where only batches are understood. */
  datatype Event = Azimuth(id: nat, event: AzimuthEvent) | Naive(id: nat, isBatch: bool, data: Bytes)

  function TxSteps(txs: seq<NaiveTx>): seq<Step> {
    seq(|txs|, i requires 0 <= i < |txs| => L2(txs[i]))
  }

  function StepsOf(e: Event): seq<Step> {
    match e
    case Azimuth(id, event) => [L1(id, event)]
    case Naive(id, isBatch, data) => if isBatch then TxSteps(Parsed(data, id)) else [L1(id, Unrecognized)]
  }

  function ApplyTxs(recover: Recovery, w: World, txs: seq<NaiveTx>): Result<World>
    decreases |txs|
  {
    if txs == [] then Ok(w)
    else
      match ApplyTx(recover, w, txs[0])
      case Panic => Panic
      case Ok(w') => ApplyTxs(recover, w', txs[1..])
  }

  function ApplyEvent(recover: Recovery, w: World, e: Event): Result<World> {
    match e
    case Azimuth(id, event) => ApplyAzimuth(w, event, id)
    case Naive(id, isBatch, data) => if isBatch then ApplyTxs(recover, w, Parsed(data, id)) else Panic
  }

  function Fold(recover: Recovery, w: World, events: seq<Event>): Result<World>
    decreases |events|
  {
    if events == [] then Ok(w)
    else
      match ApplyEvent(recover, w, events[0])
      case Panic => Panic
      case Ok(w') => Fold(recover, w', events[1..])
  }

  function AllSteps(events: seq<Event>): seq<Step> {
    if events == [] then [] else StepsOf(events[0]) + AllSteps(events[1..])
  }

  /** A Naive event that is no batch panics, and a batch in which nothing can be read does nothing. */
  lemma NaiveEventLaw(recover: Recovery, w: World, id: nat, data: Bytes)
    ensures ApplyEvent(recover, w, Naive(id, false, data)) == Panic
    ensures Records(data, id, 0).None? ==> ApplyEvent(recover, w, Naive(id, true, data)) == Ok(w)
  {
    hide Records;
  }

  lemma FoldNothing(recover: Recovery, w: World)
    ensures Fold(recover, w, []) == Ok(w)
  {
  }

  lemma FoldNext(recover: Recovery, w: World, events: seq<Event>, w': World)
    requires events != [] && ApplyEvent(recover, w, events[0]) == Ok(w')
    ensures Fold(recover, w, events) == Fold(recover, w', events[1..])
  {
    hide ApplyEvent;
  }

  /** A replay of one batch with one transaction. */
  lemma LoneTx(recover: Recovery, w: World, id: nat, data: Bytes, tx: NaiveTx)
    requires Parsed(data, id) == [tx]
    ensures Fold(recover, w, [Naive(id, true, data)]) == ApplyTx(recover, w, tx)
  {
    hide Parsed, ApplyTx;
    var e := Naive(id, true, data);
    assert [tx][1..] == [] && [e][1..] == [];
    assert ApplyTxs(recover, w, [tx]) == ApplyTx(recover, w, tx);
    assert ApplyEvent(recover, w, e) == ApplyTxs(recover, w, Parsed(data, id));
    if ApplyTx(recover, w, tx).Ok? {
      FoldNext(recover, w, [e], ApplyTx(recover, w, tx).value);
      FoldNothing(recover, ApplyTx(recover, w, tx).value);
    }
  }

  lemma {:induction false} FoldConcat(recover: Recovery, w: World, a: seq<Event>, b: seq<Event>)
    ensures Fold(recover, w, a + b)
         == match Fold(recover, w, a) { case Panic => Panic case Ok(w') => Fold(recover, w', b) }
    decreases |a|
  {
    hide ApplyEvent;
    if a == [] {
      assert a + b == b;
    } else {
      assert (a + b)[1..] == a[1..] + b;
      if ApplyEvent(recover, w, a[0]).Ok? {
        FoldConcat(recover, ApplyEvent(recover, w, a[0]).value, a[1..], b);
      }
    }
  }

  lemma {:induction false} TxsAreSteps(recover: Recovery, w: World, txs: seq<NaiveTx>)
    ensures ApplyTxs(recover, w, txs) == Run(recover, w, TxSteps(txs))
    decreases |txs|
  {
    hide ApplyTx;
    if txs != [] {
      assert TxSteps(txs)[1..] == TxSteps(txs[1..]);
      if ApplyTx(recover, w, txs[0]).Ok? {
        TxsAreSteps(recover, ApplyTx(recover, w, txs[0]).value, txs[1..]);
      }
    }
  }

  lemma EventIsRun(recover: Recovery, w: World, e: Event)
    ensures ApplyEvent(recover, w, e) == Run(recover, w, StepsOf(e))
  {
    hide ApplyTx, Parsed;
    match e
    case Azimuth(id, event) =>
      var s := StepsOf(e);
      assert s[1..] == [];
      assert Run(recover, w, s) == Do(recover, w, s[0]);
    case Naive(id, isBatch, data) =>
      if isBatch {
        TxsAreSteps(recover, w, Parsed(data, id));
      } else {
        assert ApplyAzimuth(w, Unrecognized, id) == Panic;
        assert StepsOf(e)[0] == L1(id, Unrecognized);
      }
  }

  /** Playing events is playing their steps: what holds of all runs of steps holds of all replays. */
  lemma {:induction false} FoldIsRun(recover: Recovery, w: World, events: seq<Event>)
    ensures Fold(recover, w, events) == Run(recover, w, AllSteps(events))
    decreases |events|
  {
    hide ApplyEvent, Do, StepsOf;
    if events != [] {
      EventIsRun(recover, w, events[0]);
      RunConcat(recover, w, StepsOf(events[0]), AllSteps(events[1..]));
      if ApplyEvent(recover, w, events[0]).Ok? {
        FoldIsRun(recover, ApplyEvent(recover, w, events[0]).value, events[1..]);
      }
    }
  }

  // ---------------------------------------------------------------- what one step can do to the table

  /** The world after an event: unchanged, or with the event's own row revised and one diff about it. */
  ghost predicate RevisesOwnRow(w: World, e: AzimuthEvent, w': World) {
    if TakesEffect(e, w.points) then
      && var n := e.point;
      && w'.points == w.points[n := Revised(e, if n in w.points then w.points[n] else DEFAULT_ROW)]
      && |w'.diffs| == |w.diffs| + 1 && w'.diffs[..|w.diffs|] == w.diffs && w'.diffs[|w.diffs|].number == n
    else w' == w
  }

  /** An event panics only as its own checks do or when it spawns an existing row, never for want of a diff's row. */
  lemma AzimuthStep(w: World, e: AzimuthEvent, eventId: nat)
    ensures ApplyAzimuth(w, e, eventId).Ok?
       <==> Effects(e, eventId, w.points).Ok? && (e.Spawned? ==> e.point !in w.points)
    ensures ApplyAzimuth(w, e, eventId).Ok? ==> RevisesOwnRow(w, e, ApplyAzimuth(w, e, eventId).value)
  {
    if Effects(e, eventId, w.points).Ok? {
      var n := if TakesEffect(e, w.points) then e.point else 0;
      EffectShape(e, eventId, w.points);
      if TakesEffect(e, w.points) {
        EffectMeaning(e, eventId, w.points, if n in w.points then w.points[n] else DEFAULT_ROW);
      }
      var effect := Effects(e, eventId, w.points).value;
      hide Effects, Write, Revised;
      if TakesEffect(e, w.points) {
        assert effect.queries[1..] == [];
        assert ExecAll(w.points, effect.queries) == Exec(w.points, effect.queries[0]);
      }
    }
  }

  /** The diffs of a permitted transaction name its subject or its offspring, which exists when they are saved. */
  lemma TxDiffsNameRows(tx: NaiveTx, t: Table)
    requires tx.ship in t
    ensures forall i :: 0 <= i < |NaiveEffects.IntendedDiffs(tx, t)| ==>
                          && NaiveEffects.IntendedDiffs(tx, t)[i].number in NaiveEffects.Intended(tx, t)
                          && NaiveEffects.IntendedDiffs(tx, t)[i].number
                             == (if tx.opcode == OP_SPAWN then tx.targetShip else NaiveEffects.Subject(tx))
  {
    hide NaiveEffects.Newborn, NaiveEffects.Revised, NaiveEffects.BlankKeys;
  }

  // ---------------------------------------------------------------- positions do not matter to the table

  predicate SamePayload(a: NaiveTx, b: NaiveTx) {
    b == a.(eventId := b.eventId, intraLogIndex := b.intraLogIndex)
  }

  lemma PayloadDecides(recover: Recovery, v: World, a: NaiveTx, w: World, b: NaiveTx)
    requires v.points == w.points && SamePayload(a, b)
    ensures ApplyTx(recover, v, a).Ok? <==> ApplyTx(recover, w, b).Ok?
    ensures ApplyTx(recover, v, a).Ok? ==> ApplyTx(recover, v, a).value.points == ApplyTx(recover, w, b).value.points
  {
    if GetPoint(v.points, a.ship).Ok? {
      var p := v.points[a.ship];
      assert Verdict(recover, a, p) == Verdict(recover, b, p);
      assert NaiveEffects.Intended(a, v.points) == NaiveEffects.Intended(b, v.points);
    }
  }

  lemma {:induction false} PayloadsDecide(recover: Recovery, v: World, a: seq<NaiveTx>, w: World, b: seq<NaiveTx>)
    requires v.points == w.points && |a| == |b| && forall i :: 0 <= i < |a| ==> SamePayload(a[i], b[i])
    ensures ApplyTxs(recover, v, a).Ok? <==> ApplyTxs(recover, w, b).Ok?
    ensures ApplyTxs(recover, v, a).Ok? ==> ApplyTxs(recover, v, a).value.points == ApplyTxs(recover, w, b).value.points
    decreases |a|
  {
    hide ApplyTx;
    if a != [] {
      PayloadDecides(recover, v, a[0], w, b[0]);
      if ApplyTx(recover, v, a[0]).Ok? {
        PayloadsDecide(recover, ApplyTx(recover, v, a[0]).value, a[1..], ApplyTx(recover, w, b[0]).value, b[1..]);
      }
    }
  }

  lemma {:induction false} RecordsPayload(b: Bytes, id: nat, index: nat, id': nat, index': nat)
    ensures Records(b, id, index).Some? <==> Records(b, id', index').Some?
    ensures Records(b, id, index).Some? ==>
              var x, y := Records(b, id, index).value, Records(b, id', index').value;
              |x| == |y| && forall i :: 0 <= i < |x| ==> SamePayload(x[i], y[i])
    decreases |b|
  {
    hide LastTx, LastLength;
    if |b| >= SIGNATURE_LENGTH {
      RecordsStep(b, id, index);
      RecordsStep(b, id', index');
      hide Records;
      LastPayload(b, id, index, id', index');
      RecordsPayload(b[..Max0(|b| - LastLength(b))], id, index + 1, id', index' + 1);
    }
  }

  lemma LastPayload(b: Bytes, id: nat, index: nat, id': nat, index': nat)
    requires |b| >= SIGNATURE_LENGTH
    ensures SamePayload(LastTx(b, id, index), LastTx(b, id', index'))
  {
    hide Window, FromBE32;
  }

  lemma {:induction false} TxsConcat(recover: Recovery, w: World, a: seq<NaiveTx>, b: seq<NaiveTx>)
    ensures ApplyTxs(recover, w, a + b)
         == match ApplyTxs(recover, w, a) { case Panic => Panic case Ok(w') => ApplyTxs(recover, w', b) }
    decreases |a|
  {
    hide ApplyTx;
    if a == [] {
      assert a + b == b;
    } else {
      assert (a + b)[1..] == a[1..] + b;
      if ApplyTx(recover, w, a[0]).Ok? {
        TxsConcat(recover, ApplyTx(recover, w, a[0]).value, a[1..], b);
      }
    }
  }
}

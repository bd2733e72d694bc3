/** Dominion, and which layer may write which column. */
module Layers {
  import ByteStrings
  import opened Outcomes
  import opened Points
  import BatchParser
  import opened Signing
  import opened AzimuthEvents
  import N = NaiveEffects
  import opened Runs

  /** Rows have one of the three dominions, the third only stars and galaxies. */
  ghost predicate DominionsValid(t: Table) {
    forall n :: n in t ==> t[n].dominion == ON_L1 || t[n].dominion == ON_L2
                           || (t[n].dominion == SPAWNS_ON_L2 && Rank(n) != PLANET)
  }

  /** Points move from layer 1 to layer 2, possibly by way of spawning there, and never back. */
  predicate MayMove(from: int, to: int) {
    from == to || (from == ON_L1 && (to == ON_L2 || to == SPAWNS_ON_L2)) || (from == SPAWNS_ON_L2 && to == ON_L2)
  }

  /** Everything but the nonces, the activity flag, sponsorship and escapes. */
  predicate SameIdentity(p: Point, q: Point) {
    p.addresses == q.addresses && p.keys == q.keys && p.life == q.life && p.rift == q.rift
  }

  // ---------------------------------------------------------------- one step

  /** What a layer 1 event may do to a row, given the row's dominion. */
  ghost predicate L1MayWrite(n: Ship, p: Point, q: Point) {
    && q.nonces == p.nonces
    && MayMove(p.dominion, q.dominion)
    && (q.dominion != p.dominion ==> SameIdentity(p, q))
    && (q.dominion == SPAWNS_ON_L2 && p.dominion != SPAWNS_ON_L2 ==> Rank(n) != PLANET)
    && (p.dominion == ON_L2 ==> SameIdentity(p, q))
    && (p.dominion == SPAWNS_ON_L2 ==> q.addresses.spawn == p.addresses.spawn)
  }

  /** What a layer 2 transaction may do to a row, given the row's dominion. */
  ghost predicate L2MayWrite(p: Point, q: Point) {
    && q.dominion == p.dominion
    && q.isActive == p.isActive
    && (p.dominion == ON_L1 ==> SameIdentity(p, q))
    && (p.dominion == SPAWNS_ON_L2 ==> SameIdentity(p, q.(addresses := q.addresses.(spawn := p.addresses.spawn))))
  }

  /** A row that layer 1 creates is a default row but for activity, sponsorship and escapes; one of layer 2 is on it. */
  ghost predicate NewRow(s: Step, q: Point) {
    && q.nonces == Nonces(0, 0, 0, 0, 0)
    && q.keys == Keys(0, [], []) && q.life == 0 && q.rift == 0
    && !q.isEscapeRequested && q.escapeRequestedTo == 0
    && q.dominion == (if s.L1? then ON_L1 else ON_L2)
    && (s.L1? ==> q.addresses == NO_ADDRESSES)
  }

  lemma L1Writes(w: World, e: AzimuthEvent, id: nat, w': World, n: Ship)
    requires DominionsValid(w.points) && ApplyAzimuth(w, e, id) == Ok(w')
    ensures n in w.points ==> n in w'.points && L1MayWrite(n, w.points[n], w'.points[n])
    ensures n !in w.points && n in w'.points ==> NewRow(L1(id, e), w'.points[n])
    ensures n in w.points && Subject(e) != Some(n) ==> w'.points[n] == w.points[n]
  {
    AzimuthStep(w, e, id);
    hide ApplyAzimuth, Effects, ByteStrings.FromBE32;
  }

  lemma L2Writes(recover: Recovery, w: World, tx: BatchParser.NaiveTx, w': World, n: Ship)
    requires DominionsValid(w.points) && ApplyTx(recover, w, tx) == Ok(w')
    ensures n in w.points ==> n in w'.points && L2MayWrite(w.points[n], w'.points[n])
    ensures n !in w.points && n in w'.points ==> NewRow(L2(tx), w'.points[n])
    ensures n in w.points && n != tx.ship ==>
              SameIdentity(w.points[n], w'.points[n]) && w'.points[n].nonces == w.points[n].nonces
  {
    hide N.IntendedDiffs, Verdict, N.Aborts, N.Intended;
    if w' != w {
      N.IntendedRow(tx, w.points, n);
    }
  }

  /**
   * Single writer per layer, for every step from every valid table: a layer 1 event leaves addresses, nonces, keys,
   * life and rift of a layer 2 point alone, a layer 2 transaction leaves addresses, keys, life and rift of a layer 1
   * point alone, and of a point that only spawns on layer 2 the spawn address belongs to layer 2 and the rest to
   * layer 1. Dominion moves one way and only by layer 1.
   */
  lemma SingleWriter(recover: Recovery, w: World, s: Step, w': World)
    requires DominionsValid(w.points) && Do(recover, w, s) == Ok(w')
    ensures DominionsValid(w'.points)
    ensures forall n :: n in w.points ==>
                          n in w'.points
                          && if s.L1? then L1MayWrite(n, w.points[n], w'.points[n])
                             else L2MayWrite(w.points[n], w'.points[n])
    ensures forall n :: n in w'.points && n !in w.points ==> NewRow(s, w'.points[n])
  {
    hide ApplyAzimuth, ApplyTx;
    forall n
      ensures n in w.points ==>
                n in w'.points
                && if s.L1? then L1MayWrite(n, w.points[n], w'.points[n]) else L2MayWrite(w.points[n], w'.points[n])
      ensures n in w'.points && n !in w.points ==> NewRow(s, w'.points[n])
    {
      match s
      case L1(id, e) => L1Writes(w, e, id, w', n);
      case L2(tx) => L2Writes(recover, w, tx, w', n);
    }
  }

  // ---------------------------------------------------------------- whole runs

  /**
   * Over any run: rows are never deleted, dominion only moves forward, and layer 2 is never left. The dominions stay
   * valid.
   */
  lemma {:induction false} Handover(recover: Recovery, w: World, steps: seq<Step>)
    requires DominionsValid(w.points) && Run(recover, w, steps).Ok?
    ensures DominionsValid(Run(recover, w, steps).value.points)
    ensures forall n :: n in w.points ==>
                          n in Run(recover, w, steps).value.points
                          && MayMove(w.points[n].dominion, Run(recover, w, steps).value.points[n].dominion)
    decreases |steps|
  {
    hide Do;
    if steps != [] {
      var w' := Do(recover, w, steps[0]).value;
      SingleWriter(recover, w, steps[0], w');
      Handover(recover, w', steps[1..]);
    }
  }

  predicate SentBy(s: Step, n: Ship) {
    s.L2? && s.tx.ship == n
  }

  predicate About(s: Step, n: Ship) {
    s.L1? && Subject(s.event) == Some(n)
  }

  lemma OwnStep(recover: Recovery, w: World, s: Step, w': World, n: Ship)
    requires DominionsValid(w.points) && Do(recover, w, s) == Ok(w') && n in w.points
    ensures n in w'.points
    ensures !SentBy(s, n) ==> w'.points[n].nonces == w.points[n].nonces
    ensures !SentBy(s, n) && !About(s, n) ==>
              SameIdentity(w.points[n], w'.points[n]) && w'.points[n].dominion == w.points[n].dominion
    ensures !SentBy(s, n) && w.points[n].dominion == ON_L2 ==>
              SameIdentity(w.points[n], w'.points[n]) && w'.points[n].dominion == ON_L2
    ensures !About(s, n) && w.points[n].dominion == ON_L1 ==>
              SameIdentity(w.points[n], w'.points[n]) && w'.points[n].dominion == ON_L1
  {
    hide ApplyAzimuth, ApplyTx;
    match s
    case L1(id, e) => L1Writes(w, e, id, w', n);
    case L2(tx) => L2Writes(recover, w, tx, w', n);
  }

  /**
   * Over any interleaving of both layers: the addresses, keys, life, rift and dominion of a point on layer 1 change
   * only through layer 1 events about the point itself.
   */
  lemma {:induction false} OnlyOwnEvents(recover: Recovery, w: World, steps: seq<Step>, n: Ship)
    requires DominionsValid(w.points) && Run(recover, w, steps).Ok?
    requires n in w.points && w.points[n].dominion == ON_L1
    requires forall i :: 0 <= i < |steps| ==> !About(steps[i], n)
    ensures var t := Run(recover, w, steps).value.points;
            n in t && SameIdentity(w.points[n], t[n]) && t[n].dominion == ON_L1
    decreases |steps|
  {
    hide Do, ApplyAzimuth, ApplyTx;
    if steps != [] {
      var w' := Do(recover, w, steps[0]).value;
      SingleWriter(recover, w, steps[0], w');
      assert !About(steps[0], n);
      OwnStep(recover, w, steps[0], w', n);
      assert forall i :: 0 <= i < |steps[1..]| ==> steps[1..][i] == steps[i + 1];
      OnlyOwnEvents(recover, w', steps[1..], n);
    }
  }
}

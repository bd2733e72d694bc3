/** Why a point has the sponsor it has, and where points come from. */
module Sponsorship {
  import opened ByteStrings
  import opened Outcomes
  import opened Points
  import opened BatchParser
  import opened Signing
  import opened AzimuthEvents
  import opened Runs
  import opened Moments
  import opened Escapes
  import L1 = EventLaws
  import L2 = TxLaws

  /** Whether a point has a sponsor, and the column that names it; none for a point that does not exist. */
  function SponsorOf(w: World, n: Ship): Option<(bool, Ship)> {
    if n in w.points then Some((w.points[n].hasSponsor, w.points[n].sponsor)) else None
  }

  /** Layer 1: the point's own spawning or activation, its acceptance, or the loss of its present sponsor. */
  predicate L1Moves(t: Table, e: AzimuthEvent, n: Ship) {
    || (e.Spawned? && e.point == n && n !in t)
    || (e.Activated? && e.point == n && (n !in t || n < 0x100))
    || (e.EscapeAccepted? && e.point == n && e.sponsor in t && t[e.sponsor].dominion != 2)
    || (e.LostSponsor? && e.point == n && n in t && t[n].hasSponsor && t[n].sponsor == e.sponsor
        && e.sponsor in t && t[e.sponsor].dominion != 2)
  }

  /**
   * Layer 2: adoption by the ship that the point asked, detachment by its present sponsor, either by owner or
   * management role, or its own spawning by its natural parent.
   */
  predicate L2Moves(t: Table, tx: NaiveTx, n: Ship) {
    && tx.targetShip == n
    && if tx.opcode == 1 then n !in t && L2.MaySpawn(tx.ship, n) && (tx.proxy == 0 || tx.proxy == 1)
       else
         && (tx.proxy == 0 || tx.proxy == 2) && n in t
         && ((tx.opcode == 5 && t[n].escapeRequestedTo == tx.ship) || (tx.opcode == 7 && t[n].sponsor == tx.ship))
  }

  lemma SponsorAfterL1(w: World, e: AzimuthEvent, id: nat, w': World, n: Ship)
    requires ApplyAzimuth(w, e, id) == Ok(w') && SponsorOf(w', n) != SponsorOf(w, n)
    ensures L1Moves(w.points, e, n)
  {
    match e
    case Spawned(parent, m) => L1.SpawnedLaw(w, id, parent, m);
    case Activated(m) => L1.ActivatedLaw(w, id, m);
    case OwnerChanged(m, a) => L1.OwnerChangedLaw(w, id, m, a);
    case ChangedSpawnProxy(m, a) => L1.ChangedSpawnProxyLaw(w, id, m, a);
    case EscapeAccepted(m, sponsor) => L1.EscapeAcceptedLaw(w, id, m, sponsor);
    case LostSponsor(m, sponsor) => L1.LostSponsorLaw(w, id, m, sponsor);
    case BrokeContinuity(m, data) => L1.BrokeContinuityLaw(w, id, m, data);
    case ChangedKeys(m, data) => L1.ChangedKeysLaw(w, id, m, data);
    case ChangedDns => L1.OtherEventsLaw(w, id);
    case Unrecognized => L1.OtherEventsLaw(w, id);
    case _ => L1.OwnEventLaw(w, e, id);
  }

  lemma OwnerAndKeysKeepSponsor(recover: Recovery, w: World, tx: NaiveTx, w': World, n: Ship)
    requires Accepted(recover, w, tx) && ApplyTx(recover, w, tx) == Ok(w') && (tx.opcode == 0 || tx.opcode == 2)
    ensures SponsorOf(w', n) == SponsorOf(w, n)
  {
    hide ApplyTx, Accepted, ToBE32, L2.SomeByte;
    if tx.opcode == 0 {
      L2.TransferLaw(recover, w, tx, w');
    } else {
      L2.KeysLaw(recover, w, tx, w');
    }
  }

  lemma EscapesAndProxiesKeepSponsor(recover: Recovery, w: World, tx: NaiveTx, w': World, n: Ship)
    requires Accepted(recover, w, tx) && ApplyTx(recover, w, tx) == Ok(w')
    requires tx.opcode in {3, 4, 6, 8, 9, 10}
    ensures SponsorOf(w', n) == SponsorOf(w, n)
  {
    hide ApplyTx, Accepted, ToBE32;
    match tx.opcode {
      case 3 => L2.EscapeLaw(recover, w, tx, w');
      case 4 => L2.CancelEscapeLaw(recover, w, tx, w');
      case 6 => L2.RejectLaw(recover, w, tx, w');
      case _ => L2.ProxyLaw(recover, w, tx, w');
    }
  }

  lemma SponsorAfterL2(recover: Recovery, w: World, tx: NaiveTx, w': World, n: Ship)
    requires ApplyTx(recover, w, tx) == Ok(w') && SponsorOf(w', n) != SponsorOf(w, n)
    ensures Accepted(recover, w, tx) && L2Moves(w.points, tx, n)
  {
    if !Accepted(recover, w, tx) {
      L2.RejectedLaw(recover, w, tx);
    } else {
      L2.PanicLaw(recover, w, tx);
    }
    hide ApplyTx, Accepted;
    match tx.opcode {
      case 0 => OwnerAndKeysKeepSponsor(recover, w, tx, w', n);
      case 2 => OwnerAndKeysKeepSponsor(recover, w, tx, w', n);
      case 1 => L2.SpawnLaw(recover, w, tx, w');
      case 5 => L2.AdoptLaw(recover, w, tx, w');
      case 7 => L2.DetachLaw(recover, w, tx, w');
      case _ => EscapesAndProxiesKeepSponsor(recover, w, tx, w', n);
    }
  }

  /** Why step `s` from world `u` may move the sponsor of `n`; an adoption needs an outstanding request, or ship 0. */
  predicate Moves(recover: Recovery, u: World, s: Step, n: Ship) {
    match s
    case L1(_, e) => L1Moves(u.points, e, n)
    case L2(tx) =>
      && Accepted(recover, u, tx) && L2Moves(u.points, tx, n)
      && (tx.opcode == 5 ==> n in u.points && (u.points[n].isEscapeRequested || tx.ship == 0))
  }

  /**
   * Over any run of both layers: if a point's sponsorship is different at the end, then at some moment of the run it
   * was spawned, activated, accepted, lost, adopted on its request, or detached by its sponsor, and by nobody else.
   */
  lemma SponsorshipMoves(recover: Recovery, w: World, steps: seq<Step>, n: Ship)
    returns (i: nat, u: World, u': World)
    requires EscapesConsistent(w.points) && Run(recover, w, steps).Ok?
    requires SponsorOf(Run(recover, w, steps).value, n) != SponsorOf(w, n)
    ensures Moment(recover, w, steps, i, u, u') && SponsorOf(u, n) != SponsorOf(u', n)
    ensures Moves(recover, u, steps[i], n)
  {
    i, u, u' := SomeMoment(recover, w, steps, (v: World) => SponsorOf(v, n));
    EscapesStayConsistent(recover, w, steps[..i]);
    hide ApplyAzimuth, ApplyTx, Accepted, Run, L1Moves;
    match steps[i] {
      case L1(id, e) => SponsorAfterL1(u, e, id, u', n);
      case L2(tx) => SponsorAfterL2(recover, u, tx, u', n);
    }
  }

  // ---------------------------------------------------------------- births

  /** Layer 1 creates a row by spawning, by activation, or by accepting an escape. */
  predicate L1Creates(e: AzimuthEvent, n: Ship) {
    (e.Spawned? || e.Activated? || e.EscapeAccepted?) && e.point == n
  }

  /**
   * Layer 2 creates a row only by an accepted spawning transaction of the natural parent, on layer 2 or spawning there,
   * by its owner or spawn role; and the new row is born to the recipient.
   */
  predicate L2Creates(recover: Recovery, u: World, tx: NaiveTx, n: Ship, u': World) {
    && Accepted(recover, u, tx) && tx.opcode == 1 && tx.targetShip == n && L2.MaySpawn(tx.ship, n)
    && (tx.proxy == 0 || tx.proxy == 1)
    && tx.ship in u.points && (u.points[tx.ship].dominion == 2 || u.points[tx.ship].dominion == 3)
    && n in u'.points && L2.BornTo(tx, u.points[tx.ship].addresses, u'.points[n])
  }

  /** Over any run of both layers: a point that comes into being does so at some moment in one of these ways. */
  lemma Births(recover: Recovery, w: World, steps: seq<Step>, n: Ship) returns (i: nat, u: World, u': World)
    requires Run(recover, w, steps).Ok? && n !in w.points && n in Run(recover, w, steps).value.points
    ensures Moment(recover, w, steps, i, u, u') && n !in u.points && n in u'.points
    ensures match steps[i] {
              case L1(_, e) => L1Creates(e, n)
              case L2(tx) => L2Creates(recover, u, tx, n, u') }
  {
    i, u, u' := SomeMoment(recover, w, steps, (v: World) => n in v.points);
    hide ApplyAzimuth, ApplyTx, L1Creates, L2Creates, Run;
    match steps[i] {
      case L1(id, e) => BornByL1(u, e, id, u', n);
      case L2(tx) => BornByL2(recover, u, tx, u', n);
    }
  }

  lemma BornByL1(w: World, e: AzimuthEvent, id: nat, w': World, n: Ship)
    requires ApplyAzimuth(w, e, id) == Ok(w') && (n in w.points) != (n in w'.points)
    ensures n !in w.points && L1Creates(e, n)
  {
    if n in w.points {
      RowsStayL1(w, e, id, w', n);
    }
    hide ApplyAzimuth;
    SponsorAfterL1(w, e, id, w', n);
  }

  lemma BornByL2(recover: Recovery, w: World, tx: NaiveTx, w': World, n: Ship)
    requires ApplyTx(recover, w, tx) == Ok(w') && (n in w.points) != (n in w'.points)
    ensures n !in w.points && L2Creates(recover, w, tx, n, w')
  {
    if n in w.points {
      RowsStayL2(recover, w, tx, w', n);
    }
    SponsorAfterL2(recover, w, tx, w', n);
    hide ApplyTx, Accepted;
    L2.SpawnLaw(recover, w, tx, w');
  }

  lemma RowsStayL1(w: World, e: AzimuthEvent, id: nat, w': World, n: Ship)
    requires ApplyAzimuth(w, e, id) == Ok(w') && n in w.points
    ensures n in w'.points
  {
    AzimuthStep(w, e, id);
    hide ApplyAzimuth, Effects, Revised;
  }

  lemma RowsStayL2(recover: Recovery, w: World, tx: NaiveTx, w': World, n: Ship)
    requires ApplyTx(recover, w, tx) == Ok(w') && n in w.points
    ensures n in w'.points
  {
    if Accepted(recover, w, tx) {
      L2.NonceLaw(recover, w, tx, w');
    } else {
      L2.RejectedLaw(recover, w, tx);
    }
  }
}

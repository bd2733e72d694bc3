/** The sponsor graph. */
module Sponsors {
  import ByteStrings
  import opened Outcomes
  import opened Points
  import opened BatchParser
  import opened Signing
  import opened AzimuthEvents
  import N = NaiveEffects
  import opened Runs

  /** An existing smaller-numbered sponsor, or a galaxy as its own. */
  ghost predicate SeniorTo(t: Table, sponsor: Ship, n: Ship) {
    sponsor in t && (sponsor < n || (sponsor == n && Rank(n) == GALAXY))
  }

  /** Sponsors exist and are senior; requested sponsors are smaller-numbered, if there is a request at all. */
  ghost predicate SponsorsSenior(t: Table) {
    forall n :: n in t ==>
                  && (t[n].hasSponsor ==> SeniorTo(t, t[n].sponsor, n))
                  && (t[n].escapeRequestedTo < n || t[n].escapeRequestedTo == 0)
  }

  /** What the layer 1 contract guarantees: parents are smaller-numbered, and spawning ones exist. */
  predicate Sound(t: Table, e: AzimuthEvent) {
    match e
    case Spawned(parent, n) => parent < n && parent in t
    case EscapeRequested(n, sponsor) => sponsor < n
    case EscapeAccepted(n, sponsor) => sponsor < n
    case _ => true
  }

  /** Every layer 1 event of a run is sound when it is played; layer 2 is not restricted at all. */
  ghost predicate SoundRun(recover: Recovery, w: World, steps: seq<Step>)
    decreases |steps|
  {
    steps != [] ==>
      && (steps[0].L1? ==> Sound(w.points, steps[0].event))
      && (Do(recover, w, steps[0]).Ok? ==> SoundRun(recover, Do(recover, w, steps[0]).value, steps[1..]))
  }

  lemma SponsorOfEvent(e: AzimuthEvent, p: Point)
    ensures var q := Revised(e, p);
            && (q.hasSponsor ==>
                  || (p.hasSponsor && q.sponsor == p.sponsor)
                  || ((e.Spawned? || e.EscapeAccepted?) && q.sponsor == if e.Spawned? then e.parent else e.sponsor)
                  || (e.Activated? && Rank(e.point) == GALAXY && q.sponsor == e.point))
            && (q.escapeRequestedTo != p.escapeRequestedTo && q.escapeRequestedTo != 0 ==>
                  e.EscapeRequested? && q.escapeRequestedTo == e.sponsor)
  {
    hide ByteStrings.FromBE32;
  }

  lemma SeniorAfterL1(w: World, e: AzimuthEvent, id: nat, w': World)
    requires SponsorsSenior(w.points) && Sound(w.points, e) && ApplyAzimuth(w, e, id) == Ok(w')
    ensures SponsorsSenior(w'.points)
  {
    AzimuthStep(w, e, id);
    if TakesEffect(e, w.points) {
      SponsorOfEvent(e, if e.point in w.points then w.points[e.point] else DEFAULT_ROW);
    }
    hide ApplyAzimuth, Effects, Revised;
    forall n | n in w'.points
      ensures w'.points[n].hasSponsor ==> SeniorTo(w'.points, w'.points[n].sponsor, n)
      ensures w'.points[n].escapeRequestedTo < n || w'.points[n].escapeRequestedTo == 0
    {
      assert n in w.points && w.points[n].hasSponsor ==> SeniorTo(w.points, w.points[n].sponsor, n);
    }
  }

  lemma SponsorOfRevised(tx: NaiveTx, p: Point)
    ensures var q := N.Revised(tx, p);
            && q.hasSponsor == (tx.opcode == OP_ADOPT || (p.hasSponsor && tx.opcode != OP_DETACH))
            && (q.hasSponsor ==> q.sponsor == if tx.opcode == OP_ADOPT then tx.ship else p.sponsor)
            && q.escapeRequestedTo == (if tx.opcode == OP_ESCAPE then tx.targetShip
                                       else if OP_CANCEL_ESCAPE <= tx.opcode <= OP_REJECT then 0
                                       else p.escapeRequestedTo)
  {
  }

  /** One row after an accepted transaction. */
  lemma SeniorRow(tx: NaiveTx, t: Table, n: Ship)
    requires SponsorsSenior(t) && tx.ship in t && n in N.Intended(tx, t)
    ensures var t' := N.Intended(tx, t);
            && (t'[n].hasSponsor ==> SeniorTo(t, t'[n].sponsor, n))
            && (t'[n].escapeRequestedTo < n || t'[n].escapeRequestedTo == 0)
  {
    N.IntendedRow(tx, t, n);
    hide N.Intended, N.Revised;
    if n in t {
      var p := if n == tx.ship then BumpNonce(t[n], tx.proxy) else t[n];
      SponsorOfRevised(tx, p);
      ParentIsSenior(n);
      assert t[n].hasSponsor ==> SeniorTo(t, t[n].sponsor, n);
    } else {
      ParentIsSenior(n);
    }
  }

  lemma SeniorAfterL2(recover: Recovery, w: World, tx: NaiveTx, w': World)
    requires SponsorsSenior(w.points) && ApplyTx(recover, w, tx) == Ok(w')
    ensures SponsorsSenior(w'.points)
  {
    hide N.IntendedDiffs, Verdict, N.Aborts, N.Intended;
    if w' != w {
      forall n | n in w.points ensures n in w'.points {
        N.IntendedRow(tx, w.points, n);
      }
      forall n | n in w'.points
        ensures w'.points[n].hasSponsor ==> SeniorTo(w'.points, w'.points[n].sponsor, n)
        ensures w'.points[n].escapeRequestedTo < n || w'.points[n].escapeRequestedTo == 0
      {
        SeniorRow(tx, w.points, n);
      }
    }
  }

  /** If layer 1 is sound, both layers keep the sponsor graph closed and ordered over any run. */
  lemma {:induction false} SponsorsStaySenior(recover: Recovery, w: World, steps: seq<Step>)
    requires SponsorsSenior(w.points) && SoundRun(recover, w, steps) && Run(recover, w, steps).Ok?
    ensures SponsorsSenior(Run(recover, w, steps).value.points)
    decreases |steps|
  {
    hide ApplyAzimuth, ApplyTx, SponsorsSenior, Sound;
    if steps != [] {
      var w' := Do(recover, w, steps[0]).value;
      match steps[0] {
        case L1(id, e) => SeniorAfterL1(w, e, id, w');
        case L2(tx) => SeniorAfterL2(recover, w, tx, w');
      }
      SponsorsStaySenior(recover, w', steps[1..]);
    }
  }

  // ---------------------------------------------------------------- following sponsors

  /** A point at which following sponsors ends. */
  predicate IsRoot(t: Table, n: Ship)
    requires n in t
  {
    !t[n].hasSponsor || t[n].sponsor == n
  }

  /** The point reached from `n` after following up to `k` sponsors. */
  function Climb(t: Table, n: Ship, k: nat): Ship
    decreases k
  {
    if k == 0 || n !in t || IsRoot(t, n) then n else Climb(t, t[n].sponsor, k - 1)
  }

  /** Following sponsors ends at a root within `n` links: there are no cycles but a galaxy's own. */
  lemma {:induction false} SponsorsEnd(t: Table, n: Ship)
    requires SponsorsSenior(t) && n in t
    ensures exists k: nat :: k <= n && Climb(t, n, k) in t && IsRoot(t, Climb(t, n, k))
    decreases n
  {
    if IsRoot(t, n) {
      assert Climb(t, n, 0) == n;
    } else {
      var s := t[n].sponsor;
      assert SeniorTo(t, s, n);
      SponsorsEnd(t, s);
      var k: nat :| k <= s && Climb(t, s, k) in t && IsRoot(t, Climb(t, s, k));
      assert Climb(t, n, k + 1) == Climb(t, s, k);
    }
  }

  /** Over a whole run from nothing: every point's sponsors lead to a root. */
  lemma ReplayedSponsorsEnd(recover: Recovery, steps: seq<Step>, n: Ship)
    requires SoundRun(recover, GENESIS, steps) && Run(recover, GENESIS, steps).Ok?
    requires n in Run(recover, GENESIS, steps).value.points
    ensures var t := Run(recover, GENESIS, steps).value.points;
            && (t[n].hasSponsor ==> SeniorTo(t, t[n].sponsor, n))
            && exists k: nat :: k <= n && Climb(t, n, k) in t && IsRoot(t, Climb(t, n, k))
  {
    SponsorsStaySenior(recover, GENESIS, steps);
    hide Run, SoundRun;
    SponsorsEnd(Run(recover, GENESIS, steps).value.points, n);
  }
}

/** The diff log against the table. */
module DiffLog {
  import ByteStrings
  import opened Outcomes
  import opened Points
  import Diffs
  import opened BatchParser
  import opened Signing
  import opened AzimuthEvents
  import N = NaiveEffects
  import opened Runs

  /** Some diff from position `k` on is about `n`. */
  predicate Mentioned(log: seq<Diffs.Diff>, k: nat, n: Ship) {
    exists i :: k <= i < |log| && log[i].number == n
  }

  /** Both tables have the row or neither, and it differs in nonces at most. */
  ghost predicate SameRow(t: Table, t': Table, n: Ship) {
    (n in t <==> n in t') && (n in t ==> SameApartFromNonces(t[n], t'[n]))
  }

  /** The log only grows, and a row it does not mention anew is the same row. */
  ghost predicate Complete(w: World, w': World) {
    && w.diffs <= w'.diffs
    && forall n :: !Mentioned(w'.diffs, |w.diffs|, n) ==> SameRow(w.points, w'.points, n)
  }

  lemma CompleteL1(w: World, e: AzimuthEvent, id: nat, w': World)
    requires ApplyAzimuth(w, e, id) == Ok(w')
    ensures Complete(w, w')
  {
    AzimuthStep(w, e, id);
    hide ApplyAzimuth, Effects, Revised;
    if TakesEffect(e, w.points) {
      assert w'.diffs[|w.diffs|].number == e.point;
      assert Mentioned(w'.diffs, |w.diffs|, e.point);
    }
  }

  /** A permitted transaction is logged, except one that configures the keys that are there already. */
  lemma UnloggedRevisesNothing(tx: NaiveTx, t: Table)
    requires tx.ship in t && N.Permitted(tx, t) && N.IntendedDiffs(tx, t) == []
    ensures tx.opcode == OP_CONFIGURE_KEYS
    ensures forall p: Point :: SameApartFromNonces(t[tx.ship], p) ==> N.Revised(tx, p) == p
  {
    hide N.BlankKeys, ByteStrings.ToBE32;
  }

  lemma RowUnlessLogged(tx: NaiveTx, t: Table, n: Ship)
    requires tx.ship in t
    requires forall i :: 0 <= i < |N.IntendedDiffs(tx, t)| ==> N.IntendedDiffs(tx, t)[i].number != n
    ensures SameRow(t, N.Intended(tx, t), n)
  {
    N.IntendedRow(tx, t, n);
    TxDiffsNameRows(tx, t);
    hide N.Intended, N.Revised, N.Newborn;
    if N.Permitted(tx, t) && N.IntendedDiffs(tx, t) == [] {
      UnloggedRevisesNothing(tx, t);
    }
    hide N.Permitted;
    if N.IntendedDiffs(tx, t) != [] {
      assert N.IntendedDiffs(tx, t)[0].number != n;
    }
    hide N.IntendedDiffs;
  }

  lemma CompleteL2(recover: Recovery, w: World, tx: NaiveTx, w': World)
    requires ApplyTx(recover, w, tx) == Ok(w')
    ensures Complete(w, w')
  {
    hide N.Intended, N.IntendedDiffs, N.Aborts, Verdict;
    if w' != w {
      var diffs := N.IntendedDiffs(tx, w.points);
      forall n | !Mentioned(w'.diffs, |w.diffs|, n) ensures SameRow(w.points, w'.points, n) {
        forall i | 0 <= i < |diffs| ensures diffs[i].number != n {
          assert w'.diffs[|w.diffs| + i] == diffs[i];
        }
        RowUnlessLogged(tx, w.points, n);
      }
    }
  }

  lemma CompleteTransitive(u: World, v: World, w: World)
    requires Complete(u, v) && Complete(v, w)
    ensures Complete(u, w)
  {
    forall n | !Mentioned(w.diffs, |u.diffs|, n) ensures SameRow(u.points, w.points, n) {
      assert forall i :: |u.diffs| <= i < |v.diffs| ==> v.diffs[i] == w.diffs[i];
      assert SameRow(u.points, v.points, n);
      assert SameRow(v.points, w.points, n);
    }
  }

  /**
   * Diff-log completeness: over any run, a point that no newly saved diff names has the same row at both ends, apart
   * from nonces, or none at either.
   */
  lemma {:induction false} DiffsTellAll(recover: Recovery, w: World, steps: seq<Step>)
    requires Run(recover, w, steps).Ok?
    ensures Complete(w, Run(recover, w, steps).value)
    decreases |steps|
  {
    hide ApplyAzimuth, ApplyTx, Complete;
    if steps == [] {
      CompleteReflexive(w);
    } else {
      var w' := Do(recover, w, steps[0]).value;
      match steps[0] {
        case L1(id, e) => CompleteL1(w, e, id, w');
        case L2(tx) => CompleteL2(recover, w, tx, w');
      }
      DiffsTellAll(recover, w', steps[1..]);
      CompleteTransitive(w, w', Run(recover, w, steps).value);
    }
  }

  lemma CompleteReflexive(w: World)
    ensures Complete(w, w)
  {
  }

  // ---------------------------------------------------------------- diffs name rows

  ghost predicate DiffsNamed(w: World) {
    forall i :: 0 <= i < |w.diffs| ==> w.diffs[i].number in w.points
  }

  lemma NamedAfterStep(recover: Recovery, w: World, s: Step, w': World)
    requires DiffsNamed(w) && Do(recover, w, s) == Ok(w')
    ensures DiffsNamed(w')
  {
    match s
    case L1(id, e) =>
      AzimuthStep(w, e, id);
      hide ApplyAzimuth, Effects, Revised, TakesEffect;
      assert forall i :: 0 <= i < |w.diffs| ==> w'.diffs[i] == w'.diffs[..|w.diffs|][i];
    case L2(tx) =>
      hide N.Intended, N.IntendedDiffs, N.Aborts, Verdict;
      if w' != w {
        TxDiffsNameRows(tx, w.points);
        forall n | n in w.points ensures n in w'.points {
          N.IntendedRow(tx, w.points, n);
        }
      }
  }

  /** Every diff of a replay names a point that exists, from the moment it is saved. */
  lemma {:induction false} DiffsNameRows(recover: Recovery, w: World, steps: seq<Step>)
    requires DiffsNamed(w) && Run(recover, w, steps).Ok?
    ensures DiffsNamed(Run(recover, w, steps).value)
    decreases |steps|
  {
    hide Do, DiffsNamed;
    if steps != [] {
      var w' := Do(recover, w, steps[0]).value;
      NamedAfterStep(recover, w, steps[0], w');
      DiffsNameRows(recover, w', steps[1..]);
    }
  }
}

/** Life and rift against networking keys, for points on layer 2. */
module KeyLives {
  import opened ByteStrings
  import opened Outcomes
  import opened Points
  import BatchParser
  import opened Signing
  import N = NaiveEffects
  import opened Runs
  import opened Layers

  /** Suite and both keys as numbers; an empty key is the number zero. */
  ghost function KeyNumbers(k: Keys): (int, int, int) {
    (k.suite, Numeric(k.auth), Numeric(k.encryption))
  }

  /** Life and rift rise by at most one, and the keys' numbers can only change when life rises. */
  ghost predicate KeyStep(p: Point, q: Point) {
    && (q.life == p.life || q.life == Inc32(p.life))
    && (q.rift == p.rift || q.rift == Inc32(p.rift))
    && (q.life == p.life ==> KeyNumbers(q.keys) == KeyNumbers(p.keys))
  }

  lemma BlankKeysAreZero(k: Keys)
    requires N.BlankKeys(k)
    ensures KeyNumbers(k) == (0, 0, 0) == KeyNumbers(Keys(0, [], []))
  {
    NumericOfZeros(|k.auth|);
    NumericOfZeros(|k.encryption|);
  }

  lemma RevisedKeys(tx: BatchParser.NaiveTx, p: Point)
    ensures KeyStep(p, N.Revised(tx, p))
  {
    hide Numeric;
    if tx.opcode == BatchParser.OP_TRANSFER_POINT && tx.flag && N.BlankKeys(p.keys) {
      BlankKeysAreZero(p.keys);
    }
    hide N.BlankKeys;
  }

  lemma KeysOfOwnTx(recover: Recovery, w: World, tx: BatchParser.NaiveTx, w': World)
    requires ApplyTx(recover, w, tx) == Ok(w')
    ensures tx.ship in w.points && tx.ship in w'.points && KeyStep(w.points[tx.ship], w'.points[tx.ship])
  {
    hide N.IntendedDiffs, Verdict, N.Aborts, N.Revised, N.Newborn, N.Permitted, N.Intended, KeyNumbers, N.Subject;
    if w' != w {
      N.IntendedRow(tx, w.points, tx.ship);
      RevisedKeys(tx, BumpNonce(w.points[tx.ship], tx.proxy));
    }
  }

  lemma KeysOfStep(recover: Recovery, w: World, s: Step, w': World, n: Ship)
    requires DominionsValid(w.points) && Do(recover, w, s) == Ok(w')
    requires n in w.points && w.points[n].dominion == ON_L2
    ensures n in w'.points && w'.points[n].dominion == ON_L2 && KeyStep(w.points[n], w'.points[n])
  {
    SingleWriter(recover, w, s, w');
    OwnStep(recover, w, s, w', n);
    hide ApplyAzimuth, ApplyTx, KeyNumbers, DominionsValid;
    if SentBy(s, n) {
      KeysOfOwnTx(recover, w, s.tx, w');
    }
  }

  // ---------------------------------------------------------------- whole runs

  function Changed(a: int, b: int): nat {
    if a == b then 0 else 1
  }

  /** How often a run changes the life of `n`. */
  ghost function Rekeyings(recover: Recovery, w: World, steps: seq<Step>, n: Ship): nat
    decreases |steps|
  {
    if steps == [] || Do(recover, w, steps[0]).Panic? then 0
    else
      var w' := Do(recover, w, steps[0]).value;
      (if n in w.points && n in w'.points then Changed(w.points[n].life, w'.points[n].life) else 0)
      + Rekeyings(recover, w', steps[1..], n)
  }

  /** How often a run changes the rift of `n`. */
  ghost function Breaches(recover: Recovery, w: World, steps: seq<Step>, n: Ship): nat
    decreases |steps|
  {
    if steps == [] || Do(recover, w, steps[0]).Panic? then 0
    else
      var w' := Do(recover, w, steps[0]).value;
      (if n in w.points && n in w'.points then Changed(w.points[n].rift, w'.points[n].rift) else 0)
      + Breaches(recover, w', steps[1..], n)
  }

  lemma AddOne(a: uint32, b: uint32, c: uint32, k: nat)
    requires (b == a || b == Inc32(a)) && c == (b + k) % TWO_32
    ensures c == (a + (Changed(a, b) + k)) % TWO_32
  {
  }

  /** Life and rift have grown modulo 2^32 by the given counts; the keys only change along with life. */
  ghost predicate LifeCounted(p: Point, q: Point, rekeyings: nat, breaches: nat) {
    && q.life == (p.life + rekeyings) % TWO_32
    && q.rift == (p.rift + breaches) % TWO_32
    && (rekeyings == 0 ==> KeyNumbers(q.keys) == KeyNumbers(p.keys))
  }

  lemma CountOneMore(p: Point, q: Point, r: Point, rekeyings: nat, breaches: nat)
    requires KeyStep(p, q) && LifeCounted(q, r, rekeyings, breaches)
    ensures LifeCounted(p, r, Changed(p.life, q.life) + rekeyings, Changed(p.rift, q.rift) + breaches)
  {
    hide KeyNumbers;
    AddOne(p.life, q.life, r.life, rekeyings);
    AddOne(p.rift, q.rift, r.rift, breaches);
  }

  /** Life and rift count, modulo 2^32, the steps that change them; without such a step the keys stay numerically. */
  lemma {:induction false} LifeCounts(recover: Recovery, w: World, steps: seq<Step>, n: Ship)
    requires DominionsValid(w.points) && Run(recover, w, steps).Ok?
    requires n in w.points && w.points[n].dominion == ON_L2
    ensures var t := Run(recover, w, steps).value.points;
            && n in t && t[n].dominion == ON_L2
            && LifeCounted(w.points[n], t[n], Rekeyings(recover, w, steps, n), Breaches(recover, w, steps, n))
            && Rekeyings(recover, w, steps, n) <= |steps| && Breaches(recover, w, steps, n) <= |steps|
    decreases |steps|
  {
    hide Do;
    if steps == [] {
      assert LifeCounted(w.points[n], w.points[n], 0, 0);
    } else {
      hide LifeCounted, KeyStep;
      var w' := Do(recover, w, steps[0]).value;
      SingleWriter(recover, w, steps[0], w');
      KeysOfStep(recover, w, steps[0], w', n);
      LifeCounts(recover, w', steps[1..], n);
      CountOneMore(w.points[n], w'.points[n], Run(recover, w, steps).value.points[n],
                   Rekeyings(recover, w', steps[1..], n), Breaches(recover, w', steps[1..], n));
    }
  }

  lemma NoWrap(a: uint32, b: uint32, k: nat)
    requires b == (a + k) % TWO_32
    ensures k < TWO_32 && a == b ==> k == 0
    ensures a + k < TWO_32 ==> b == a + k
  {
  }

  /** What holds between two moments, told without counting. */
  ghost predicate KeysTrackLife(p: Point, q: Point, distance: nat) {
    && (distance < TWO_32 && p.life == q.life ==> KeyNumbers(p.keys) == KeyNumbers(q.keys))
    && (p.life + distance < TWO_32 ==> p.life <= q.life <= p.life + distance)
    && (p.rift + distance < TWO_32 ==> p.rift <= q.rift <= p.rift + distance)
  }

  lemma CountedKeysTrackLife(p: Point, q: Point, rekeyings: nat, breaches: nat, distance: nat)
    requires LifeCounted(p, q, rekeyings, breaches) && rekeyings <= distance && breaches <= distance
    ensures KeysTrackLife(p, q, distance)
  {
    hide KeyNumbers;
    NoWrap(p.life, q.life, rekeyings);
    NoWrap(p.rift, q.rift, breaches);
  }

  lemma KeysOverRun(recover: Recovery, w: World, steps: seq<Step>, n: Ship)
    requires DominionsValid(w.points) && Run(recover, w, steps).Ok?
    requires n in w.points && w.points[n].dominion == ON_L2
    ensures var t := Run(recover, w, steps).value.points;
            n in t && t[n].dominion == ON_L2 && KeysTrackLife(w.points[n], t[n], |steps|)
  {
    hide Run, DominionsValid, Rekeyings, Breaches, LifeCounted, KeysTrackLife;
    LifeCounts(recover, w, steps, n);
    CountedKeysTrackLife(w.points[n], Run(recover, w, steps).value.points[n],
                         Rekeyings(recover, w, steps, n), Breaches(recover, w, steps, n), |steps|);
  }

  /**
   * Life identifies keys: at any two moments of a run fewer than 2^32 steps apart, a layer 2 point that has the same
   * life has numerically the same keys. Short of 2^32, life and rift never decrease and rise by at most one a step.
   */
  lemma LifeIdentifiesKeys(recover: Recovery, w: World, steps: seq<Step>, i: nat, j: nat, n: Ship)
    requires DominionsValid(w.points) && i <= j <= |steps| && Run(recover, w, steps).Ok?
    ensures Run(recover, w, steps[..i]).Ok? && Run(recover, w, steps[..j]).Ok?
    ensures var a, b := Run(recover, w, steps[..i]).value.points, Run(recover, w, steps[..j]).value.points;
            n in a && a[n].dominion == ON_L2 ==>
              n in b && b[n].dominion == ON_L2 && KeysTrackLife(a[n], b[n], j - i)
  {
    hide Run, KeysTrackLife;
    assert steps == steps[..j] + steps[j..] && steps[..j] == steps[..i] + steps[i..j];
    RunConcat(recover, w, steps[..j], steps[j..]);
    RunConcat(recover, w, steps[..i], steps[i..j]);
    var a := Run(recover, w, steps[..i]).value;
    Handover(recover, w, steps[..i]);
    if n in a.points && a.points[n].dominion == ON_L2 {
      KeysOverRun(recover, a, steps[i..j], n);
    }
  }
}

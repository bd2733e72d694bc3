/**
 * What each layer 2 opcode does, read off the tables before and after: when an accepted transaction takes effect, which
 * columns of which row then hold what, and what is logged. Nonces are counted apart from that, in `NonceTheorems`.
 */
module TxLaws {
  import opened ByteStrings
  import opened Outcomes
  import opened Points
  import opened Diffs
  import opened BatchParser
  import opened Signing
  import N = NaiveEffects
  import opened Runs

  /** Row `n` has become `q` and no other row has changed, all but for nonces. */
  ghost predicate OnlyRow(t: Table, t': Table, n: Ship, q: Point) {
    && t'.Keys == t.Keys
    && forall m :: m in t ==> SameApartFromNonces(if m == n then q else t[m], t'[m])
  }

  /** Nothing is logged, and no row has changed but for nonces. */
  ghost predicate Ignored(w: World, w': World) {
    && w'.diffs == w.diffs
    && w'.points.Keys == w.points.Keys
    && forall m :: m in w.points ==> SameApartFromNonces(w.points[m], w'.points[m])
  }

  /** Exactly one diff is logged, at the transaction's position. */
  ghost predicate Logged(w: World, w': World, tx: NaiveTx, number: Ship, operation: nat, data: Bytes) {
    w'.diffs == w.diffs + [Diff(tx.eventId, tx.intraLogIndex, number, operation, data)]
  }

  lemma AcceptedStep(recover: Recovery, w: World, tx: NaiveTx, w': World)
    requires Accepted(recover, w, tx) && ApplyTx(recover, w, tx) == Ok(w')
    ensures tx.ship in w.points && !N.Aborts(tx, w.points)
    ensures w'.points == N.Intended(tx, w.points) && w'.diffs == w.diffs + N.IntendedDiffs(tx, w.points)
  {
    hide Verdict, N.Aborts, N.Intended, N.IntendedDiffs;
  }

  /** How a transaction that revises a row changes the table. */
  lemma RevisedRow(tx: NaiveTx, t: Table)
    requires tx.ship in t && N.Permitted(tx, t) && tx.opcode != OP_SPAWN && N.Subject(tx) in t
    ensures OnlyRow(t, N.Intended(tx, t), N.Subject(tx), N.Revised(tx, t[N.Subject(tx)]))
  {
    forall m | m in t ensures m in N.Intended(tx, t) {
      N.IntendedRow(tx, t, m);
    }
    forall m | m in N.Intended(tx, t) ensures m in t {
      N.IntendedRow(tx, t, m);
    }
    var n := N.Subject(tx);
    forall m | m in t ensures SameApartFromNonces(if m == n then N.Revised(tx, t[n]) else t[m], N.Intended(tx, t)[m]) {
      N.IntendedRow(tx, t, m);
      RevisedAnyNonces(tx, t[n], BumpNonce(t[n], tx.proxy));
      hide N.Intended, N.Revised, N.Permitted, BumpNonce;
    }
  }

  lemma RevisedAnyNonces(tx: NaiveTx, p: Point, row: Point)
    requires SameApartFromNonces(p, row)
    ensures SameApartFromNonces(N.Revised(tx, p), N.Revised(tx, row))
  {
  }

  lemma UnpermittedIgnored(recover: Recovery, w: World, tx: NaiveTx, w': World)
    requires Accepted(recover, w, tx) && ApplyTx(recover, w, tx) == Ok(w') && !N.Permitted(tx, w.points)
    ensures Ignored(w, w')
  {
    AcceptedStep(recover, w, tx, w');
    hide ApplyTx, Accepted, N.Permitted, N.Aborts;
  }

  /** A permitted transaction other than a spawning one, in terms of its revision and its diffs. */
  lemma PermittedStep(recover: Recovery, w: World, tx: NaiveTx, w': World)
    requires Accepted(recover, w, tx) && ApplyTx(recover, w, tx) == Ok(w')
    requires tx.opcode != OP_SPAWN
    ensures tx.ship in w.points
    ensures !N.Permitted(tx, w.points) ==> Ignored(w, w')
    ensures N.Permitted(tx, w.points) ==>
              && N.Subject(tx) in w.points
              && OnlyRow(w.points, w'.points, N.Subject(tx), N.Revised(tx, w.points[N.Subject(tx)]))
              && w'.diffs == w.diffs + N.IntendedDiffs(tx, w.points)
  {
    AcceptedStep(recover, w, tx, w');
    hide ApplyTx, Accepted;
    if N.Permitted(tx, w.points) {
      assert N.Subject(tx) in w.points;
      RevisedRow(tx, w.points);
    } else {
      hide N.Permitted;
      UnpermittedIgnored(recover, w, tx, w');
    }
  }

  // ---------------------------------------------------------------- opcodes on the source's own row

  /** Some byte is not zero. */
  predicate SomeByte(b: Bytes) {
    exists i :: 0 <= i < |b| && b[i] != 0
  }

  lemma SomeByteIs(b: Bytes)
    ensures SomeByte(b) <==> !N.IsZero(b)
  {
    if b != Zeros(|b|) {
      var i :| 0 <= i < |b| && b[i] != Zeros(|b|)[i];
    }
  }

  /**
   * Transfer, on layer 2, by owner or transfer role: the target address owns the point and the transfer role is
   * cleared. A reset also clears the other roles and the keys, counts as a breach if the point ever had a life, and as
   * a change of keys if there were any.
   */
  lemma TransferLaw(recover: Recovery, w: World, tx: NaiveTx, w': World)
    requires Accepted(recover, w, tx) && ApplyTx(recover, w, tx) == Ok(w') && tx.opcode == 0
    ensures tx.ship in w.points
    ensures var p := w.points[tx.ship];
            var keyed := p.keys.suite != 0 || SomeByte(p.keys.auth) || SomeByte(p.keys.encryption);
            var owned := [Diff(tx.eventId, tx.intraLogIndex, tx.ship, DIFF_CHANGED_OWNER, tx.targetAddress)];
            var breached := [Diff(tx.eventId, tx.intraLogIndex, tx.ship, DIFF_BREACHED, [])];
            var rekeyed := [Diff(tx.eventId, tx.intraLogIndex, tx.ship, DIFF_RESET_KEYS, [])];
            if p.dominion != 2 || (tx.proxy != 0 && tx.proxy != 4) then Ignored(w, w')
            else if !tx.flag then
              && OnlyRow(w.points, w'.points, tx.ship,
                         p.(addresses := p.addresses.(owner := tx.targetAddress, transfer := ZERO_ADDRESS)))
              && w'.diffs == w.diffs + owned
            else
              && OnlyRow(w.points, w'.points, tx.ship,
                         p.(addresses := Addresses(tx.targetAddress, ZERO_ADDRESS, ZERO_ADDRESS, ZERO_ADDRESS,
                                                   ZERO_ADDRESS),
                            keys := Keys(0, [], []),
                            rift := if p.life == 0 then p.rift else (p.rift + 1) % 0x1_0000_0000,
                            life := if keyed then (p.life + 1) % 0x1_0000_0000 else p.life))
              && w'.diffs == w.diffs + owned + (if p.life == 0 then [] else breached) + (if keyed then rekeyed else [])
  {
    PermittedStep(recover, w, tx, w');
    KeyedIs(w.points[tx.ship].keys);
    hide ApplyTx, Accepted, OnlyRow, Ignored, SomeByte, N.BlankKeys;
  }

  lemma KeyedIs(k: Keys)
    ensures N.BlankKeys(k) <==> !(k.suite != 0 || SomeByte(k.auth) || SomeByte(k.encryption))
  {
    SomeByteIs(k.auth);
    SomeByteIs(k.encryption);
  }

  /** Configuring keys, on layer 2, by owner or management role: a breach on request, a new life if they differ. */
  lemma KeysLaw(recover: Recovery, w: World, tx: NaiveTx, w': World)
    requires Accepted(recover, w, tx) && ApplyTx(recover, w, tx) == Ok(w') && tx.opcode == 2
    ensures tx.ship in w.points
    ensures var p, keys := w.points[tx.ship], Keys(tx.suite, tx.authKey, tx.encryptionKey);
            var breached := [Diff(tx.eventId, tx.intraLogIndex, tx.ship, DIFF_BREACHED, [])];
            var rekeyed := [Diff(tx.eventId, tx.intraLogIndex, tx.ship, DIFF_RESET_KEYS,
                                 ToBE32(tx.suite) + (tx.authKey + tx.encryptionKey))];
            if p.dominion != 2 || (tx.proxy != 0 && tx.proxy != 2) then Ignored(w, w')
            else
              && OnlyRow(w.points, w'.points, tx.ship,
                         p.(keys := keys,
                            rift := if tx.flag then (p.rift + 1) % 0x1_0000_0000 else p.rift,
                            life := if p.keys == keys then p.life else (p.life + 1) % 0x1_0000_0000))
              && w'.diffs == w.diffs + (if tx.flag then breached else []) + (if p.keys == keys then [] else rekeyed)
  {
    PermittedStep(recover, w, tx, w');
    hide ApplyTx, Accepted, OnlyRow, Ignored, ToBE32;
  }

  /** Requesting an escape, by owner or management role, to a point one rank higher. */
  lemma EscapeLaw(recover: Recovery, w: World, tx: NaiveTx, w': World)
    requires Accepted(recover, w, tx) && ApplyTx(recover, w, tx) == Ok(w') && tx.opcode == 3
    ensures tx.ship in w.points
    ensures var p := w.points[tx.ship];
            if (tx.proxy != 0 && tx.proxy != 2) || Rank(tx.targetShip) + 1 != Rank(tx.ship) then Ignored(w, w')
            else
              && OnlyRow(w.points, w'.points, tx.ship,
                         p.(isEscapeRequested := true, escapeRequestedTo := tx.targetShip))
              && Logged(w, w', tx, tx.ship, DIFF_ESCAPE_REQUESTED, ToBE32(tx.targetShip))
  {
    PermittedStep(recover, w, tx, w');
    hide ApplyTx, Accepted, OnlyRow, Ignored, ToBE32;
  }

  /** Cancelling an escape, by owner or management role, whether or not one is requested. */
  lemma CancelEscapeLaw(recover: Recovery, w: World, tx: NaiveTx, w': World)
    requires Accepted(recover, w, tx) && ApplyTx(recover, w, tx) == Ok(w') && tx.opcode == 4
    ensures tx.ship in w.points
    ensures var p := w.points[tx.ship];
            if tx.proxy != 0 && tx.proxy != 2 then Ignored(w, w')
            else
              && OnlyRow(w.points, w'.points, tx.ship, p.(isEscapeRequested := false, escapeRequestedTo := 0))
              && Logged(w, w', tx, tx.ship, DIFF_ESCAPE_CANCELED, ToBE32(0))
  {
    PermittedStep(recover, w, tx, w');
    hide ApplyTx, Accepted, OnlyRow, Ignored, ToBE32;
  }

  /** Each settable proxy: on layer 2, by the owner or by the role itself; the spawn proxy also of spawn-only points. */
  lemma ProxyLaw(recover: Recovery, w: World, tx: NaiveTx, w': World)
    requires Accepted(recover, w, tx) && ApplyTx(recover, w, tx) == Ok(w') && 8 <= tx.opcode <= 10
    ensures tx.ship in w.points
    ensures var p := w.points[tx.ship];
            var role := if tx.opcode == 8 then 2 else if tx.opcode == 9 then 1 else 4;
            var q := p.(addresses := if tx.opcode == 8 then p.addresses.(management := tx.targetAddress)
                                     else if tx.opcode == 9 then p.addresses.(spawn := tx.targetAddress)
                                     else p.addresses.(transfer := tx.targetAddress));
            var operation := if tx.opcode == 8 then DIFF_CHANGED_MANAGEMENT_PROXY
                             else if tx.opcode == 9 then DIFF_CHANGED_SPAWN_PROXY else DIFF_CHANGED_TRANSFER_PROXY;
            if (p.dominion == 2 || (p.dominion == 3 && tx.opcode == 9)) && (tx.proxy == 0 || tx.proxy == role)
               && (tx.opcode == 9 ==> tx.ship < 0x1_0000)
            then OnlyRow(w.points, w'.points, tx.ship, q) && Logged(w, w', tx, tx.ship, operation, tx.targetAddress)
            else Ignored(w, w')
  {
    PermittedStep(recover, w, tx, w');
    hide ApplyTx, Accepted, OnlyRow, Ignored;
  }

  // ---------------------------------------------------------------- opcodes on another row

  /** Adoption, by owner or management role of the ship that the target last asked. */
  lemma AdoptLaw(recover: Recovery, w: World, tx: NaiveTx, w': World)
    requires Accepted(recover, w, tx) && ApplyTx(recover, w, tx) == Ok(w') && tx.opcode == 5
    ensures if (tx.proxy != 0 && tx.proxy != 2) then Ignored(w, w')
            else
              && tx.targetShip in w.points
              && var p := w.points[tx.targetShip];
                 if p.escapeRequestedTo != tx.ship then Ignored(w, w')
                 else
                   && OnlyRow(w.points, w'.points, tx.targetShip,
                              p.(isEscapeRequested := false, escapeRequestedTo := 0, hasSponsor := true,
                                 sponsor := tx.ship))
                   && Logged(w, w', tx, tx.targetShip, DIFF_ESCAPE_ACCEPTED, ToBE32(0))
  {
    PermittedStep(recover, w, tx, w');
    AcceptedStep(recover, w, tx, w');
    hide ApplyTx, Accepted, OnlyRow, Ignored, ToBE32;
  }

  /** Rejection, likewise; the sponsor stays. */
  lemma RejectLaw(recover: Recovery, w: World, tx: NaiveTx, w': World)
    requires Accepted(recover, w, tx) && ApplyTx(recover, w, tx) == Ok(w') && tx.opcode == 6
    ensures if (tx.proxy != 0 && tx.proxy != 2) then Ignored(w, w')
            else
              && tx.targetShip in w.points
              && var p := w.points[tx.targetShip];
                 if p.escapeRequestedTo != tx.ship then Ignored(w, w')
                 else
                   && OnlyRow(w.points, w'.points, tx.targetShip,
                              p.(isEscapeRequested := false, escapeRequestedTo := 0))
                   && Logged(w, w', tx, tx.targetShip, DIFF_ESCAPE_REJECTED, ToBE32(0))
  {
    PermittedStep(recover, w, tx, w');
    AcceptedStep(recover, w, tx, w');
    hide ApplyTx, Accepted, OnlyRow, Ignored, ToBE32;
  }

  /** Detachment, by owner or management role of the target's sponsor. */
  lemma DetachLaw(recover: Recovery, w: World, tx: NaiveTx, w': World)
    requires Accepted(recover, w, tx) && ApplyTx(recover, w, tx) == Ok(w') && tx.opcode == 7
    ensures if (tx.proxy != 0 && tx.proxy != 2) then Ignored(w, w')
            else
              && tx.targetShip in w.points
              && var p := w.points[tx.targetShip];
                 if p.sponsor != tx.ship then Ignored(w, w')
                 else
                   && OnlyRow(w.points, w'.points, tx.targetShip, p.(hasSponsor := false, sponsor := 0))
                   && Logged(w, w', tx, tx.targetShip, DIFF_LOST_SPONSOR, [])
  {
    PermittedStep(recover, w, tx, w');
    AcceptedStep(recover, w, tx, w');
    hide ApplyTx, Accepted, OnlyRow, Ignored;
  }

  // ---------------------------------------------------------------- spawning

  /** The ship that may spawn `n`: the low two bytes of a planet, the low byte of a star, ship 0 for a galaxy. */
  predicate MaySpawn(ship: Ship, n: Ship) {
    if n >= 0x1_0000 then n % 0x1_0000 == ship else if n >= 0x100 then n % 0x100 == ship else ship == 0
  }

  /** The new row: a layer 2 point of its parent, which belongs to the recipient at once or is offered to it. */
  predicate BornTo(tx: NaiveTx, parent: Addresses, q: Point) {
    && q.dominion == 2 && q.hasSponsor && q.sponsor == tx.ship && !q.isActive && !q.isEscapeRequested
    && q.escapeRequestedTo == 0 && q.life == 0 && q.rift == 0 && q.keys == Keys(0, [], [])
    && q.nonces == Nonces(0, 0, 0, 0, 0)
    && q.addresses.spawn == q.addresses.management == q.addresses.voting == ZERO_ADDRESS
    && if (tx.proxy == 0 && tx.targetAddress == parent.owner) || (tx.proxy == 1 && tx.targetAddress == parent.spawn)
       then q.addresses.owner == tx.targetAddress && q.addresses.transfer == ZERO_ADDRESS
       else q.addresses.owner == parent.owner && q.addresses.transfer == tx.targetAddress
  }

  /** Spawning, on layer 2 or by a spawn-only point, by owner or spawn role, of a child that does not exist yet. */
  lemma SpawnLaw(recover: Recovery, w: World, tx: NaiveTx, w': World)
    requires Accepted(recover, w, tx) && ApplyTx(recover, w, tx) == Ok(w') && tx.opcode == 1
    ensures tx.ship in w.points
    ensures var p, n := w.points[tx.ship], tx.targetShip;
            if MaySpawn(tx.ship, n) && (p.dominion == 2 || p.dominion == 3) && (tx.proxy == 0 || tx.proxy == 1)
               && n !in w.points
            then
              && w'.points.Keys == w.points.Keys + {n}
              && BornTo(tx, p.addresses, w'.points[n])
              && (forall m :: m in w.points ==> SameApartFromNonces(w.points[m], w'.points[m]))
              && Logged(w, w', tx, n, DIFF_SPAWNED, [])
            else Ignored(w, w')
  {
    AcceptedStep(recover, w, tx, w');
    hide ApplyTx, Accepted, Ignored, N.Aborts;
    ParentIsLowPart(tx.targetShip);
    if !N.Permitted(tx, w.points) {
      UnpermittedIgnored(recover, w, tx, w');
    }
  }

  // ---------------------------------------------------------------- panics and nonces

  /** Every nonce column fits a Go uint32. */
  predicate NoncesFit(p: Point) {
    && p.nonces.owner < 0x1_0000_0000 && p.nonces.spawn < 0x1_0000_0000 && p.nonces.management < 0x1_0000_0000
    && p.nonces.voting < 0x1_0000_0000 && p.nonces.transfer < 0x1_0000_0000
  }

  /** An accepted transaction panics exactly on an unknown opcode or when it reads a row that cannot be read. */
  lemma PanicLaw(recover: Recovery, w: World, tx: NaiveTx)
    requires Accepted(recover, w, tx)
    ensures tx.ship in w.points && NoncesFit(w.points[tx.ship])
    ensures var p, n := w.points[tx.ship], tx.targetShip;
            ApplyTx(recover, w, tx).Panic? <==>
            || tx.opcode > 10
            || (5 <= tx.opcode <= 7 && (tx.proxy == 0 || tx.proxy == 2) && !(n in w.points && NoncesFit(w.points[n])))
            || (tx.opcode == 1 && MaySpawn(tx.ship, n) && (p.dominion == 2 || p.dominion == 3)
                && (tx.proxy == 0 || tx.proxy == 1) && n in w.points && !NoncesFit(w.points[n]))
  {
    ParentIsLowPart(tx.targetShip);
    hide N.Intended, N.IntendedDiffs, Verdict;
  }

  /** A transaction that is not accepted panics exactly if its source cannot be read or no key can be recovered. */
  lemma RejectedLaw(recover: Recovery, w: World, tx: NaiveTx)
    requires !Accepted(recover, w, tx)
    ensures ApplyTx(recover, w, tx).Panic? <==>
            || !(tx.ship in w.points && NoncesFit(w.points[tx.ship]))
            || Verdict(recover, tx, w.points[tx.ship]) == Panic
    ensures ApplyTx(recover, w, tx).Ok? ==> ApplyTx(recover, w, tx) == Ok(w)
  {
    hide Verdict;
  }

  /** The role's own nonce column counts an accepted transaction, whatever its opcode; no other nonce changes. */
  lemma NonceLaw(recover: Recovery, w: World, tx: NaiveTx, w': World)
    requires Accepted(recover, w, tx) && ApplyTx(recover, w, tx) == Ok(w')
    ensures tx.ship in w.points && tx.ship in w'.points
    ensures var a, b := w.points[tx.ship].nonces, w'.points[tx.ship].nonces;
            && b.owner == a.owner + (if tx.proxy == 0 then 1 else 0)
            && b.spawn == a.spawn + (if tx.proxy == 1 then 1 else 0)
            && b.management == a.management + (if tx.proxy == 2 then 1 else 0)
            && b.voting == a.voting + (if tx.proxy == 3 then 1 else 0)
            && b.transfer == a.transfer + (if tx.proxy == 4 then 1 else 0)
    ensures forall n :: n in w.points && n != tx.ship ==> n in w'.points && w'.points[n].nonces == w.points[n].nonces
  {
    AcceptedStep(recover, w, tx, w');
    hide ApplyTx, Accepted, N.IntendedDiffs, N.Intended, N.Aborts;
    forall n | n in w.points
      ensures n in w'.points
      ensures w'.points[n].nonces == (if n == tx.ship then BumpNonce(w.points[n], tx.proxy) else w.points[n]).nonces
    {
      N.IntendedRow(tx, w.points, n);
      KeepsNonces(tx, if n == tx.ship then BumpNonce(w.points[n], tx.proxy) else w.points[n]);
      hide N.Revised;
    }
  }

  lemma KeepsNonces(tx: NaiveTx, p: Point)
    ensures N.Revised(tx, p).nonces == p.nonces
  {
  }
}

/**
 * What each layer 1 event does, read off the tables before and after: which dominion stops it, which columns of which
 * row then hold what, and what is logged.
 */
module EventLaws {
  import opened ByteStrings
  import opened Outcomes
  import opened Points
  import opened Diffs
  import opened AzimuthEvents
  import opened Runs

  /** The row of `n`, or the defaults it would be created with. */
  function RowOf(t: Table, n: Ship): Point {
    if n in t then t[n]
    else Point(NO_ADDRESSES, Nonces(0, 0, 0, 0, 0), 1, false, 0, 0, Keys(0, [], []), false, 0, false, 0)
  }

  /** Row `n` holds `q`, every other row is as before, and the log has one more diff. */
  ghost predicate Becomes(w: World, w': World, id: nat, n: Ship, q: Point, operation: nat, data: Bytes) {
    w' == World(w.points[n := q], w.diffs + [Diff(id, 0, n, operation, data)])
  }

  /** The dominion of an existing point. */
  predicate HasDominion(t: Table, n: Ship, dominion: int) {
    n in t && t[n].dominion == dominion
  }

  lemma ExecOne(t: Table, q: Query)
    ensures ExecAll(t, [q]) == Exec(t, q) && ExecAll(t, []) == Ok(t)
  {
    assert [q][1..] == [];
  }

  /** One statement that upserts one row and one diff about it. */
  lemma UpsertStep(w: World, e: AzimuthEvent, id: nat, effect: Effect, q: Query, d: Diff)
    requires Effects(e, id, w.points) == Ok(effect) && effect.queries == [q] && effect.diffs == [d]
    requires q.mode == Upsert && q.number == d.number
    ensures var row := if q.number in w.points then w.points[q.number] else DEFAULT_ROW;
            var t := w.points[q.number := Write(q.columns, row, q.bound)];
            ApplyAzimuth(w, e, id) == Ok(World(t, w.diffs + [d]))
  {
    ExecOne(w.points, q);
    hide Effects, Write, ExecAll;
  }

  lemma NoStep(w: World, e: AzimuthEvent, id: nat)
    requires Effects(e, id, w.points) == Ok(NO_EFFECT)
    ensures ApplyAzimuth(w, e, id) == Ok(w)
  {
    hide Effects;
  }

  /** A point is spawned once, with its parent as sponsor; nothing else is known of it yet. */
  lemma SpawnedLaw(w: World, id: nat, parent: Ship, n: Ship)
    ensures var r := ApplyAzimuth(w, Spawned(parent, n), id);
            if n in w.points then r == Panic
            else r.Ok? && Becomes(w, r.value, id, n, RowOf(w.points, n).(hasSponsor := true, sponsor := parent),
                                  DIFF_SPAWNED, [])
  {
    var e := Spawned(parent, n);
    ExecOne(w.points, Effects(e, id, w.points).value.queries[0]);
    hide ExecAll;
  }

  /** Activation creates a missing row; a galaxy becomes its own sponsor. */
  lemma ActivatedLaw(w: World, id: nat, n: Ship)
    ensures var r, p := ApplyAzimuth(w, Activated(n), id), RowOf(w.points, n);
            && r.Ok?
            && Becomes(w, r.value, id, n,
                       if n < 0x100 then p.(isActive := true, hasSponsor := true, sponsor := n)
                       else p.(isActive := true),
                       DIFF_ACTIVATED, [])
  {
    var effect := Effects(Activated(n), id, w.points).value;
    UpsertStep(w, Activated(n), id, effect, effect.queries[0], effect.diffs[0]);
    hide ApplyAzimuth;
  }

  /** Twenty bytes 0x11. */
  predicate IsDeposit(a: Address) {
    |a| == 20 && forall i :: 0 <= i < 20 ==> a[i] == 0x11
  }

  /** The deposit address as owner hands the point over to layer 2 and leaves the owner column alone. */
  lemma OwnerChangedLaw(w: World, id: nat, n: Ship, owner: Address)
    ensures var r := ApplyAzimuth(w, OwnerChanged(n, owner), id);
            if n !in w.points then r == Panic
            else if HasDominion(w.points, n, 2) then r == Ok(w)
            else
              && r.Ok?
              && var p := w.points[n];
                 if IsDeposit(owner) then Becomes(w, r.value, id, n, p.(dominion := 2), DIFF_NEW_DOMINION, [2])
                 else Becomes(w, r.value, id, n, p.(addresses := p.addresses.(owner := owner)), DIFF_CHANGED_OWNER,
                              owner)
  {
    var e := OwnerChanged(n, owner);
    FixedAddresses();
    if n in w.points && w.points[n].dominion == 2 {
      NoStep(w, e, id);
    } else if n in w.points {
      var effect := Effects(e, id, w.points).value;
      UpsertStep(w, e, id, effect, effect.queries[0], effect.diffs[0]);
      hide ApplyAzimuth;
    }
  }

  /** The deposit address as spawn proxy of a star or galaxy on layer 1 moves its spawning to layer 2. */
  lemma ChangedSpawnProxyLaw(w: World, id: nat, n: Ship, proxy: Address)
    ensures var r := ApplyAzimuth(w, ChangedSpawnProxy(n, proxy), id);
            if n !in w.points then r == Panic
            else if !HasDominion(w.points, n, 1) then r == Ok(w)
            else
              && r.Ok?
              && var p := w.points[n];
                 if n < 0x1_0000 && IsDeposit(proxy)
                 then Becomes(w, r.value, id, n, p.(dominion := 3), DIFF_NEW_DOMINION, [3])
                 else Becomes(w, r.value, id, n, p.(addresses := p.addresses.(spawn := proxy)),
                              DIFF_CHANGED_SPAWN_PROXY, proxy)
  {
    var e := ChangedSpawnProxy(n, proxy);
    FixedAddresses();
    if n in w.points && w.points[n].dominion != 1 {
      NoStep(w, e, id);
    } else if n in w.points {
      var effect := Effects(e, id, w.points).value;
      UpsertStep(w, e, id, effect, effect.queries[0], effect.diffs[0]);
      hide ApplyAzimuth;
    }
  }

  /** Events about three of a point's proxies and its own escapes, which its being on layer 2 stops. */
  predicate IsOwnEvent(e: AzimuthEvent) {
    || e.ChangedTransferProxy? || e.ChangedManagementProxy? || e.ChangedVotingProxy?
    || e.EscapeRequested? || e.EscapeCanceled?
  }

  /** What such an event makes of its row. */
  ghost predicate OwnEvent(w: World, e: AzimuthEvent, id: nat, w': World)
    requires IsOwnEvent(e) && e.point in w.points
  {
    var n, p := e.point, w.points[e.point];
    match e
    case ChangedTransferProxy(_, a) =>
      Becomes(w, w', id, n, p.(addresses := p.addresses.(transfer := a)), DIFF_CHANGED_TRANSFER_PROXY, a)
    case ChangedManagementProxy(_, a) =>
      Becomes(w, w', id, n, p.(addresses := p.addresses.(management := a)), DIFF_CHANGED_MANAGEMENT_PROXY, a)
    case ChangedVotingProxy(_, a) =>
      Becomes(w, w', id, n, p.(addresses := p.addresses.(voting := a)), DIFF_CHANGED_VOTING_PROXY, a)
    case EscapeRequested(_, sponsor) =>
      Becomes(w, w', id, n, p.(isEscapeRequested := true, escapeRequestedTo := sponsor), DIFF_ESCAPE_REQUESTED,
              ToBE32(sponsor))
    case EscapeCanceled(_, _) =>
      Becomes(w, w', id, n, p.(isEscapeRequested := false, escapeRequestedTo := 0), DIFF_ESCAPE_CANCELED, ToBE32(0))
  }

  lemma OwnEventLaw(w: World, e: AzimuthEvent, id: nat)
    requires IsOwnEvent(e)
    ensures var r := ApplyAzimuth(w, e, id);
            if e.point !in w.points then r == Panic
            else if HasDominion(w.points, e.point, 2) then r == Ok(w)
            else r.Ok? && OwnEvent(w, e, id, r.value)
  {
    hide ToBE32;
    if e.point in w.points {
      if w.points[e.point].dominion == 2 {
        NoStep(w, e, id);
      } else {
        var effect := Effects(e, id, w.points).value;
        UpsertStep(w, e, id, effect, effect.queries[0], effect.diffs[0]);
        hide ApplyAzimuth;
      }
    }
  }

  /** A breach, also stopped by layer 2; its number is in the last four bytes of its data. */
  lemma BrokeContinuityLaw(w: World, id: nat, n: Ship, data: Bytes)
    ensures var r := ApplyAzimuth(w, BrokeContinuity(n, data), id);
            if |data| < 4 || n !in w.points then r == Panic
            else if HasDominion(w.points, n, 2) then r == Ok(w)
            else
              && r.Ok?
              && var last := data[|data| - 4..];
                 Becomes(w, r.value, id, n, w.points[n].(rift := FromBE32(last)), DIFF_BREACHED, last)
  {
    var e := BrokeContinuity(n, data);
    hide FromBE32;
    if |data| >= 4 && n in w.points {
      if w.points[n].dominion == 2 {
        NoStep(w, e, id);
      } else {
        var effect := Effects(e, id, w.points).value;
        UpsertStep(w, e, id, effect, effect.queries[0], effect.diffs[0]);
        hide ApplyAzimuth;
      }
    }
  }

  /** New keys, also stopped by layer 2, come in four words: encryption, authentication, suite, life. */
  lemma ChangedKeysLaw(w: World, id: nat, n: Ship, data: Bytes)
    ensures var r := ApplyAzimuth(w, ChangedKeys(n, data), id);
            if |data| != 128 || n !in w.points then r == Panic
            else if HasDominion(w.points, n, 2) then r == Ok(w)
            else
              && r.Ok?
              && var keys := Keys(FromBE32(data[92..96]), data[32..64], data[..32]);
                 Becomes(w, r.value, id, n, w.points[n].(keys := keys, life := FromBE32(data[124..128])),
                         DIFF_RESET_KEYS, data)
  {
    var e := ChangedKeys(n, data);
    hide FromBE32;
    if |data| == 128 && n in w.points {
      if w.points[n].dominion == 2 {
        NoStep(w, e, id);
      } else {
        var effect := Effects(e, id, w.points).value;
        UpsertStep(w, e, id, effect, effect.queries[0], effect.diffs[0]);
        hide ApplyAzimuth;
      }
    }
  }

  /** Layer 1 records an acceptance unless the new sponsor is on layer 2; a missing row of the point is created. */
  lemma EscapeAcceptedLaw(w: World, id: nat, n: Ship, sponsor: Ship)
    ensures var r := ApplyAzimuth(w, EscapeAccepted(n, sponsor), id);
            if sponsor !in w.points then r == Panic
            else if HasDominion(w.points, sponsor, 2) then r == Ok(w)
            else r.Ok? && Becomes(w, r.value, id, n,
                                  RowOf(w.points, n).(isEscapeRequested := false, escapeRequestedTo := 0,
                                                      hasSponsor := true, sponsor := sponsor),
                                  DIFF_ESCAPE_ACCEPTED, ToBE32(0))
  {
    var e := EscapeAccepted(n, sponsor);
    hide ToBE32;
    if sponsor in w.points && w.points[sponsor].dominion == 2 {
      NoStep(w, e, id);
    } else if sponsor in w.points {
      var effect := Effects(e, id, w.points).value;
      UpsertStep(w, e, id, effect, effect.queries[0], effect.diffs[0]);
      hide ApplyAzimuth;
    }
  }

  /** Layer 1 records a loss only of the present sponsor, which must not be on layer 2; the sponsor column stays. */
  lemma LostSponsorLaw(w: World, id: nat, n: Ship, sponsor: Ship)
    ensures var r := ApplyAzimuth(w, LostSponsor(n, sponsor), id);
            if n !in w.points || w.points[n].sponsor !in w.points then r == Panic
            else if !w.points[n].hasSponsor || w.points[n].sponsor != sponsor || HasDominion(w.points, sponsor, 2)
            then r == Ok(w)
            else r.Ok? && Becomes(w, r.value, id, n, w.points[n].(hasSponsor := false), DIFF_LOST_SPONSOR, [])
  {
    var e := LostSponsor(n, sponsor);
    if Effects(e, id, w.points).Ok? {
      var effect := Effects(e, id, w.points).value;
      if effect == NO_EFFECT {
        NoStep(w, e, id);
      } else {
        UpsertStep(w, e, id, effect, effect.queries[0], effect.diffs[0]);
      }
      hide ApplyAzimuth;
    }
  }

  /** Of the remaining events, DNS changes do nothing and unknown ones panic. */
  lemma OtherEventsLaw(w: World, id: nat)
    ensures ApplyAzimuth(w, ChangedDns, id) == Ok(w) && ApplyAzimuth(w, Unrecognized, id) == Panic
  {
    NoStep(w, ChangedDns, id);
  }
}

/** The effects of layer 1 events (pkg/db/events.go). */
module AzimuthEvents {
  import opened ByteStrings
  import opened Outcomes
  import opened Points
  import opened Diffs

  /** An event log with its indexed topics decoded; the unindexed data of two kinds is decoded here. */
  datatype AzimuthEvent =
    | Spawned(parent: Ship, point: Ship)
    | Activated(point: Ship)
    | OwnerChanged(point: Ship, owner: Address)
    | ChangedSpawnProxy(point: Ship, proxy: Address)
    | ChangedTransferProxy(point: Ship, proxy: Address)
    | ChangedManagementProxy(point: Ship, proxy: Address)
    | ChangedVotingProxy(point: Ship, proxy: Address)
    | EscapeRequested(point: Ship, sponsor: Ship)
    | EscapeCanceled(point: Ship, sponsor: Ship)
    | EscapeAccepted(point: Ship, sponsor: Ship)
    | LostSponsor(point: Ship, sponsor: Ship)
    | BrokeContinuity(point: Ship, data: Bytes)
    | ChangedKeys(point: Ship, data: Bytes)
    | ChangedDns
    | Unrecognized

  /** At most one statement, and the diffs to log with it. */
  datatype Effect = Effect(queries: seq<Query>, diffs: seq<Diff>)

  const NO_EFFECT := Effect([], [])

  function Upserting(columns: Columns, number: Ship, p: Point, eventId: nat, operation: nat, data: Bytes): Effect {
    Effect([Query(Upsert, columns, number, p)], [Diff(eventId, 0, number, operation, data)])
  }

  function WithAddresses(a: Addresses): Point {
    ZERO_POINT.(addresses := a)
  }

  /** No effect if the deciding point is on layer 2. */
  function UnlessOnL2(t: Table, n: Ship, effect: Effect): Result<Effect> {
    match GetDominion(t, n)
    case Panic => Panic
    case Ok(dominion) => Ok(if dominion == ON_L2 then NO_EFFECT else effect)
  }

  function OnlyOnL1(t: Table, n: Ship, effect: Effect): Result<Effect> {
    match GetDominion(t, n)
    case Panic => Panic
    case Ok(dominion) => Ok(if dominion != ON_L1 then NO_EFFECT else effect)
  }

  /** The row is joined with its sponsor's; the null that a missing sponsor gives cannot be scanned. */
  function LosingSponsor(t: Table, n: Ship, sponsor: Ship, effect: Effect): Result<Effect> {
    if n !in t || t[n].sponsor !in t then Panic
    else if !t[n].hasSponsor || sponsor != t[n].sponsor || t[t[n].sponsor].dominion == ON_L2 then Ok(NO_EFFECT)
    else Ok(effect)
  }

  function Activation(n: Ship, eventId: nat): Effect {
    if Rank(n) == GALAXY
    then Upserting(ActiveSponsorColumns, n, ZERO_POINT.(isActive := true, hasSponsor := true, sponsor := n), eventId,
                   DIFF_ACTIVATED, [])
    else Upserting(ActiveColumn, n, ZERO_POINT.(isActive := true, hasSponsor := true), eventId, DIFF_ACTIVATED, [])
  }

  function Ownership(n: Ship, owner: Address, eventId: nat): Effect {
    if owner == L2_DEPOSIT_ADDRESS
    then Upserting(DominionColumn, n, ZERO_POINT.(dominion := ON_L2), eventId, DIFF_NEW_DOMINION, [2])
    else Upserting(OwnerColumn, n, WithAddresses(NO_ADDRESSES.(owner := owner)), eventId, DIFF_CHANGED_OWNER, owner)
  }

  function SpawnProxy(n: Ship, proxy: Address, eventId: nat): Effect {
    if n <= 0xffff && proxy == L2_DEPOSIT_ADDRESS
    then Upserting(DominionColumn, n, ZERO_POINT.(dominion := SPAWNS_ON_L2), eventId, DIFF_NEW_DOMINION, [3])
    else Upserting(SpawnColumn, n, WithAddresses(NO_ADDRESSES.(spawn := proxy)), eventId, DIFF_CHANGED_SPAWN_PROXY,
                   proxy)
  }

  function Breach(n: Ship, data: Bytes, eventId: nat): Effect
    requires |data| >= 4
  {
    var last := data[|data| - 4..];
    Upserting(RiftColumn, n, ZERO_POINT.(rift := FromBE32(last)), eventId, DIFF_BREACHED, last)
  }

  /** Four words: encryption key, authentication key, suite version, life. */
  function KeyChange(n: Ship, data: Bytes, eventId: nat): Effect
    requires |data| == 128
  {
    var keys := Keys(FromBE32(data[92..96]), data[32..64], data[..32]);
    Upserting(KeysLifeColumns, n, ZERO_POINT.(keys := keys, life := FromBE32(data[124..128])), eventId,
              DIFF_RESET_KEYS, data)
  }

  /** The statement and diffs of an event, decided on the table as it is. */
  function Effects(e: AzimuthEvent, eventId: nat, t: Table): Result<Effect> {
    match e
    case Spawned(parent, n) =>
      Ok(Effect([Query(Insert, SponsorColumns, n, ZERO_POINT.(sponsor := parent, hasSponsor := true))],
                [Diff(eventId, 0, n, DIFF_SPAWNED, [])]))
    case Activated(n) => Ok(Activation(n, eventId))
    case OwnerChanged(n, owner) => UnlessOnL2(t, n, Ownership(n, owner, eventId))
    case ChangedSpawnProxy(n, proxy) => OnlyOnL1(t, n, SpawnProxy(n, proxy, eventId))
    case ChangedTransferProxy(n, proxy) =>
      UnlessOnL2(t, n, Upserting(TransferColumn, n, WithAddresses(NO_ADDRESSES.(transfer := proxy)), eventId,
                                 DIFF_CHANGED_TRANSFER_PROXY, proxy))
    case ChangedManagementProxy(n, proxy) =>
      UnlessOnL2(t, n, Upserting(ManagementColumn, n, WithAddresses(NO_ADDRESSES.(management := proxy)), eventId,
                                 DIFF_CHANGED_MANAGEMENT_PROXY, proxy))
    case ChangedVotingProxy(n, proxy) =>
      UnlessOnL2(t, n, Upserting(VotingColumn, n, WithAddresses(NO_ADDRESSES.(voting := proxy)), eventId,
                                 DIFF_CHANGED_VOTING_PROXY, proxy))
    case EscapeRequested(n, sponsor) =>
      UnlessOnL2(t, n, Upserting(EscapeColumns, n, ZERO_POINT.(isEscapeRequested := true, escapeRequestedTo := sponsor),
                                 eventId, DIFF_ESCAPE_REQUESTED, AzimuthNumberToData(sponsor)))
    case EscapeCanceled(n, _) =>
      UnlessOnL2(t, n, Upserting(EscapeColumns, n, ZERO_POINT, eventId, DIFF_ESCAPE_CANCELED, AzimuthNumberToData(0)))
    case EscapeAccepted(n, parent) =>
      UnlessOnL2(t, parent, Upserting(EscapeSponsorColumns, n, ZERO_POINT.(hasSponsor := true, sponsor := parent),
                                      eventId, DIFF_ESCAPE_ACCEPTED, AzimuthNumberToData(0)))
    case LostSponsor(n, sponsor) =>
      LosingSponsor(t, n, sponsor, Upserting(HasSponsorColumn, n, ZERO_POINT, eventId, DIFF_LOST_SPONSOR, []))
    case BrokeContinuity(n, data) => if |data| < 4 then Panic else UnlessOnL2(t, n, Breach(n, data, eventId))
    case ChangedKeys(n, data) => if |data| != 128 then Panic else UnlessOnL2(t, n, KeyChange(n, data, eventId))
    case ChangedDns => Ok(NO_EFFECT)
    case Unrecognized => Panic
  }

  /** The row that an event is about. */
  function Subject(e: AzimuthEvent): Option<Ship> {
    if e.ChangedDns? || e.Unrecognized? then None else Some(e.point)
  }

  // ---------------------------------------------------------------- the intended change

  /**
   * Whether an event that does not panic changes its row. A point on layer 2 is out of reach of the events about its
   * ownership, proxies, keys, continuity and own escapes; being accepted or lost by a sponsor depends on the sponsor's
   * dominion instead, and spawning and activation on none.
   */
  predicate TakesEffect(e: AzimuthEvent, t: Table) {
    match e
    case Spawned(_, _) => true
    case Activated(_) => true
    case ChangedSpawnProxy(n, _) => n in t && t[n].dominion == ON_L1
    case EscapeAccepted(_, parent) => parent in t && t[parent].dominion != ON_L2
    case LostSponsor(n, sponsor) =>
      && n in t && t[n].hasSponsor && t[n].sponsor == sponsor
      && sponsor in t && t[sponsor].dominion != ON_L2
    case ChangedDns => false
    case Unrecognized => false
    case _ => e.point in t && t[e.point].dominion != ON_L2
  }

  /** The event's row after the change; a row that does not exist yet starts from the defaults. */
  function Revised(e: AzimuthEvent, p: Point): Point {
    match e
    case Spawned(parent, _) => p.(hasSponsor := true, sponsor := parent)
    case Activated(n) =>
      if Rank(n) == GALAXY then p.(isActive := true, hasSponsor := true, sponsor := n) else p.(isActive := true)
    case OwnerChanged(_, owner) =>
      if owner == L2_DEPOSIT_ADDRESS then p.(dominion := ON_L2)
      else p.(addresses := p.addresses.(owner := owner))
    case ChangedSpawnProxy(n, proxy) =>
      if n <= 0xffff && proxy == L2_DEPOSIT_ADDRESS then p.(dominion := SPAWNS_ON_L2)
      else p.(addresses := p.addresses.(spawn := proxy))
    case ChangedTransferProxy(_, proxy) => p.(addresses := p.addresses.(transfer := proxy))
    case ChangedManagementProxy(_, proxy) => p.(addresses := p.addresses.(management := proxy))
    case ChangedVotingProxy(_, proxy) => p.(addresses := p.addresses.(voting := proxy))
    case EscapeRequested(_, sponsor) => p.(isEscapeRequested := true, escapeRequestedTo := sponsor)
    case EscapeCanceled(_, _) => p.(isEscapeRequested := false, escapeRequestedTo := 0)
    case EscapeAccepted(_, parent) =>
      p.(isEscapeRequested := false, escapeRequestedTo := 0, hasSponsor := true, sponsor := parent)
    case LostSponsor(_, _) => p.(hasSponsor := false)
    case BrokeContinuity(_, data) =>
      if |data| < 4 then p else p.(rift := FromBE32(data[|data| - 4..]))
    case ChangedKeys(_, data) =>
      if |data| != 128 then p
      else p.(keys := Keys(FromBE32(data[92..96]), data[32..64], data[..32]), life := FromBE32(data[124..128]))
    case _ => p
  }

  /** An event has one statement and one diff about its own row, or neither when it does not take effect. */
  lemma EffectShape(e: AzimuthEvent, eventId: nat, t: Table)
    requires Effects(e, eventId, t).Ok?
    ensures var effect := Effects(e, eventId, t).value;
            if TakesEffect(e, t) then
              && |effect.queries| == |effect.diffs| == 1
              && effect.queries[0].number == effect.diffs[0].number == e.point
              && effect.queries[0].mode == (if e.Spawned? then Insert else Upsert)
            else effect == NO_EFFECT
  {
    hide FromBE32, ToBE32;
  }

  /** The statement writes the row as intended. */
  lemma EffectMeaning(e: AzimuthEvent, eventId: nat, t: Table, row: Point)
    requires Effects(e, eventId, t).Ok? && TakesEffect(e, t)
    ensures var effect := Effects(e, eventId, t).value;
            effect.queries != []
            && Write(effect.queries[0].columns, row, effect.queries[0].bound) == Revised(e, row)
  {
    hide FromBE32, ToBE32;
    EffectShape(e, eventId, t);
    if e.BrokeContinuity? {
      assert Effects(e, eventId, t).value == Breach(e.point, e.data, eventId);
    } else if e.ChangedKeys? {
      assert Effects(e, eventId, t).value == KeyChange(e.point, e.data, eventId);
    } else if e.Activated? {
      assert Effects(e, eventId, t).value == Activation(e.point, eventId);
    } else if e.OwnerChanged? {
      assert Effects(e, eventId, t).value == Ownership(e.point, e.owner, eventId);
    } else if e.ChangedSpawnProxy? {
      assert Effects(e, eventId, t).value == SpawnProxy(e.point, e.proxy, eventId);
    }
  }
}

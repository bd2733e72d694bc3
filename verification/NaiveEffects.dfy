/**
 * The effects of layer 2 transactions (pkg/db/naive_parser.go). `Effects` collects statements bound to rows read before
 * any of them runs; `Intended` is the atomic change they are meant to make: count the transaction, re-read, revise.
 */
module NaiveEffects {
  import opened ByteStrings
  import opened Outcomes
  import opened Points
  import opened Diffs
  import opened BatchParser

  // ---------------------------------------------------------------- the intended change

  predicate ActsAs(tx: NaiveTx, proxy: nat) {
    tx.proxy == PROXY_OWNER || tx.proxy == proxy
  }

  /** The row that an opcode other than spawn revises. */
  function Subject(tx: NaiveTx): Ship {
    if OP_ADOPT <= tx.opcode <= OP_DETACH then tx.targetShip else tx.ship
  }

  /** Whether the guards of the opcode let a validly signed transaction take effect. */
  predicate Permitted(tx: NaiveTx, t: Table)
    requires tx.ship in t
  {
    var p := t[tx.ship];
    match tx.opcode
    case 0 => p.dominion == ON_L2 && ActsAs(tx, PROXY_TRANSFER)
    case 1 =>
      && tx.ship == Parent(tx.targetShip)
      && (p.dominion == ON_L2 || p.dominion == SPAWNS_ON_L2)
      && ActsAs(tx, PROXY_SPAWN)
      && tx.targetShip !in t
    case 2 => p.dominion == ON_L2 && ActsAs(tx, PROXY_MANAGEMENT)
    case 3 => ActsAs(tx, PROXY_MANAGEMENT) && Rank(tx.targetShip) + 1 == Rank(tx.ship)
    case 4 => ActsAs(tx, PROXY_MANAGEMENT)
    case 5 => ActsAs(tx, PROXY_MANAGEMENT) && tx.targetShip in t && t[tx.targetShip].escapeRequestedTo == tx.ship
    case 6 => ActsAs(tx, PROXY_MANAGEMENT) && tx.targetShip in t && t[tx.targetShip].escapeRequestedTo == tx.ship
    case 7 => ActsAs(tx, PROXY_MANAGEMENT) && tx.targetShip in t && t[tx.targetShip].sponsor == tx.ship
    case 8 => p.dominion == ON_L2 && ActsAs(tx, PROXY_MANAGEMENT)
    case 9 =>
      (p.dominion == ON_L2 || p.dominion == SPAWNS_ON_L2) && ActsAs(tx, PROXY_SPAWN) && Rank(tx.ship) != PLANET
    case 10 => p.dominion == ON_L2 && ActsAs(tx, PROXY_TRANSFER)
    case _ => false
  }

  /** An unknown opcode panics, and so does reading a row that is missing or does not fit its Go type. */
  predicate Aborts(tx: NaiveTx, t: Table)
    requires tx.ship in t
  {
    var p := t[tx.ship];
    || tx.opcode > OP_SET_TRANSFER_PROXY
    || (OP_ADOPT <= tx.opcode <= OP_DETACH && ActsAs(tx, PROXY_MANAGEMENT) && GetPoint(t, tx.targetShip).Panic?)
    || (tx.opcode == OP_SPAWN && tx.ship == Parent(tx.targetShip)
        && (p.dominion == ON_L2 || p.dominion == SPAWNS_ON_L2) && ActsAs(tx, PROXY_SPAWN)
        && tx.targetShip in t && !Readable(t[tx.targetShip]))
  }

  /** All bytes zero, like any number of zeros. */
  predicate IsZero(b: Bytes) {
    b == Zeros(|b|)
  }

  predicate BlankKeys(k: Keys) {
    k.suite == 0 && IsZero(k.auth) && IsZero(k.encryption)
  }

  function NewKeys(tx: NaiveTx): Keys {
    Keys(tx.suite, tx.authKey, tx.encryptionKey)
  }

  function Transferred(tx: NaiveTx, p: Point): Point {
    var q := p.(addresses := p.addresses.(owner := tx.targetAddress, transfer := ZERO_ADDRESS));
    if !tx.flag then q
    else
      q.(addresses := NO_ADDRESSES.(owner := tx.targetAddress),
         rift := if p.life != 0 then Inc32(p.rift) else p.rift,
         life := if BlankKeys(p.keys) then p.life else Inc32(p.life),
         keys := Keys(0, [], []))
  }

  function Configured(tx: NaiveTx, p: Point): Point {
    p.(rift := if tx.flag then Inc32(p.rift) else p.rift,
       life := if p.keys == NewKeys(tx) then p.life else Inc32(p.life),
       keys := NewKeys(tx))
  }

  /** The subject's row after a permitted opcode other than spawn. */
  function Revised(tx: NaiveTx, p: Point): Point {
    match tx.opcode
    case 0 => Transferred(tx, p)
    case 2 => Configured(tx, p)
    case 3 => p.(isEscapeRequested := true, escapeRequestedTo := tx.targetShip)
    case 4 => p.(isEscapeRequested := false, escapeRequestedTo := 0)
    case 5 => p.(isEscapeRequested := false, escapeRequestedTo := 0, hasSponsor := true, sponsor := tx.ship)
    case 6 => p.(isEscapeRequested := false, escapeRequestedTo := 0)
    case 7 => p.(hasSponsor := false, sponsor := 0)
    case 8 => p.(addresses := p.addresses.(management := tx.targetAddress))
    case 9 => p.(addresses := p.addresses.(spawn := tx.targetAddress))
    case 10 => p.(addresses := p.addresses.(transfer := tx.targetAddress))
    case _ => p
  }

  /** Whether the spawner keeps a new point out of escrow: it spawns to the very address it acts for. */
  predicate SpawnsToSelf(tx: NaiveTx, p: Point) {
    || (tx.proxy == PROXY_OWNER && tx.targetAddress == p.addresses.owner)
    || (tx.proxy == PROXY_SPAWN && tx.targetAddress == p.addresses.spawn)
  }

  /** A new layer 2 point, sponsored by its parent. */
  function Newborn(tx: NaiveTx, parent: Point): Point {
    DEFAULT_ROW.(
    addresses := if SpawnsToSelf(tx, parent) then NO_ADDRESSES.(owner := tx.targetAddress)
    else NO_ADDRESSES.(owner := parent.addresses.owner, transfer := tx.targetAddress),
    dominion := ON_L2, hasSponsor := true, sponsor := tx.ship)
  }

  /** The table after counting a transaction against its source's nonce. */
  function Counted(tx: NaiveTx, t: Table): Table
    requires tx.ship in t
  {
    t[tx.ship := BumpNonce(t[tx.ship], tx.proxy)]
  }

  /** The table after a validly signed transaction: the nonce always counts, the rest happens if it is permitted. */
  function Intended(tx: NaiveTx, t: Table): Table
    requires tx.ship in t
  {
    var counted := Counted(tx, t);
    if !Permitted(tx, t) then counted
    else if tx.opcode == OP_SPAWN then counted[tx.targetShip := Newborn(tx, counted[tx.ship])]
    else counted[Subject(tx) := Revised(tx, counted[Subject(tx)])]
  }

  /** The intended change, row by row: one possible newborn, one possible revision, one nonce. */
  lemma IntendedRow(tx: NaiveTx, t: Table, n: Ship)
    requires tx.ship in t
    ensures n in t ==>
              var p := if n == tx.ship then BumpNonce(t[n], tx.proxy) else t[n];
              && n in Intended(tx, t)
              && Intended(tx, t)[n] == (if Permitted(tx, t) && tx.opcode != OP_SPAWN && n == Subject(tx)
                                        then Revised(tx, p) else p)
    ensures n !in t && n in Intended(tx, t) ==>
              && Permitted(tx, t) && tx.opcode == OP_SPAWN && n == tx.targetShip
              && Intended(tx, t)[n] == Newborn(tx, BumpNonce(t[tx.ship], tx.proxy))
  {
    hide Revised, Newborn, BumpNonce;
  }

  function DiffOf(tx: NaiveTx, number: Ship, operation: nat, data: Bytes): Diff {
    Diff(tx.eventId, tx.intraLogIndex, number, operation, data)
  }

  /** The log entries of a change of keys. */
  function KeyDiffs(tx: NaiveTx, p: Point): seq<Diff> {
    (if tx.flag then [DiffOf(tx, tx.ship, DIFF_BREACHED, [])] else [])
    + (if p.keys == NewKeys(tx) then []
       else [DiffOf(tx, tx.ship, DIFF_RESET_KEYS, ToBE32(tx.suite) + (tx.authKey + tx.encryptionKey))])
  }

  /** The log entries of a permitted transaction. */
  function IntendedDiffs(tx: NaiveTx, t: Table): seq<Diff>
    requires tx.ship in t
  {
    var p := t[tx.ship];
    if !Permitted(tx, t) then []
    else
      match tx.opcode
      case 0 =>
        [DiffOf(tx, tx.ship, DIFF_CHANGED_OWNER, tx.targetAddress)]
        + (if tx.flag && p.life != 0 then [DiffOf(tx, tx.ship, DIFF_BREACHED, [])] else [])
        + (if tx.flag && !BlankKeys(p.keys) then [DiffOf(tx, tx.ship, DIFF_RESET_KEYS, [])] else [])
      case 1 => [DiffOf(tx, tx.targetShip, DIFF_SPAWNED, [])]
      case 2 => KeyDiffs(tx, p)
      case 3 => [DiffOf(tx, tx.ship, DIFF_ESCAPE_REQUESTED, AzimuthNumberToData(tx.targetShip))]
      case 4 => [DiffOf(tx, tx.ship, DIFF_ESCAPE_CANCELED, AzimuthNumberToData(0))]
      case 5 => [DiffOf(tx, tx.targetShip, DIFF_ESCAPE_ACCEPTED, AzimuthNumberToData(0))]
      case 6 => [DiffOf(tx, tx.targetShip, DIFF_ESCAPE_REJECTED, AzimuthNumberToData(0))]
      case 7 => [DiffOf(tx, tx.targetShip, DIFF_LOST_SPONSOR, [])]
      case 8 => [DiffOf(tx, tx.ship, DIFF_CHANGED_MANAGEMENT_PROXY, tx.targetAddress)]
      case 9 => [DiffOf(tx, tx.ship, DIFF_CHANGED_SPAWN_PROXY, tx.targetAddress)]
      case 10 => [DiffOf(tx, tx.ship, DIFF_CHANGED_TRANSFER_PROXY, tx.targetAddress)]
      case _ => []
  }

  // ---------------------------------------------------------------- the program

  datatype Effect = Effect(queries: seq<Query>, diffs: seq<Diff>)

  /** One statement exactly when the transaction is permitted, which after the nonce update does what is intended. */
  ghost predicate Settles(tx: NaiveTx, t: Table, queries: seq<Query>, diffs: seq<Diff>)
    requires tx.ship in t
  {
    && (if Permitted(tx, t) then |queries| == 1 && Exec(Counted(tx, t), queries[0]) == Ok(Intended(tx, t))
        else queries == [])
    && diffs == IntendedDiffs(tx, t)
  }

  /** One update of the subject that writes its revised columns is what is intended. */
  lemma RevisionSettles(tx: NaiveTx, t: Table, columns: Columns, bound: Point, diffs: seq<Diff>)
    requires tx.ship in t && Permitted(tx, t) && tx.opcode != OP_SPAWN && diffs == IntendedDiffs(tx, t)
    requires Subject(tx) in Counted(tx, t)
    requires Write(columns, Counted(tx, t)[Subject(tx)], bound) == Revised(tx, Counted(tx, t)[Subject(tx)])
    ensures Settles(tx, t, [Query(Update, columns, Subject(tx), bound)], diffs)
  {
    hide Write, Revised, IntendedDiffs, Permitted, BumpNonce;
  }

  lemma UnpermittedSettles(tx: NaiveTx, t: Table)
    requires tx.ship in t && !Permitted(tx, t)
    ensures Settles(tx, t, [], [])
  {
    hide Permitted;
  }

  /** The statements write the same columns whichever nonces the bound row has. */
  lemma TransferredAnyNonces(tx: NaiveTx, p: Point, row: Point)
    requires SameApartFromNonces(p, row)
    ensures Write(NewOwnerColumns, row, Transferred(tx, p)) == Transferred(tx, row)
  {
  }

  lemma ConfiguredAnyNonces(tx: NaiveTx, p: Point, row: Point)
    requires SameApartFromNonces(p, row)
    ensures Write(KeysLifeRiftColumns, row, Configured(tx, p)) == Configured(tx, row)
  {
  }

  /** The reset that a transfer may ask for: breaches the point and wipes its keys and proxies. */
  method Reset(tx: NaiveTx, point: Point) returns (p: Point, diffs: seq<Diff>)
    ensures p == point.(addresses := NO_ADDRESSES.(owner := point.addresses.owner),
                        rift := if point.life != 0 then Inc32(point.rift) else point.rift,
                        life := if BlankKeys(point.keys) then point.life else Inc32(point.life),
                        keys := Keys(0, [], []))
    ensures diffs == (if point.life != 0 then [DiffOf(tx, tx.ship, DIFF_BREACHED, [])] else [])
                     + (if BlankKeys(point.keys) then [] else [DiffOf(tx, tx.ship, DIFF_RESET_KEYS, [])])
  {
    p, diffs := point, [];
    if p.life != 0 {
      p := p.(rift := Inc32(p.rift));
      diffs := diffs + [DiffOf(tx, tx.ship, DIFF_BREACHED, [])];
    }
    if p.keys.suite != 0 || p.keys.auth != Zeros(|p.keys.auth|) || p.keys.encryption != Zeros(|p.keys.encryption|) {
      p := p.(life := Inc32(p.life));
      diffs := diffs + [DiffOf(tx, tx.ship, DIFF_RESET_KEYS, [])];
    }
    p := p.(keys := Keys(0, [], []));
    p := p.(addresses := p.addresses.(spawn := ZERO_ADDRESS, management := ZERO_ADDRESS, voting := ZERO_ADDRESS,
                                      transfer := ZERO_ADDRESS));
  }

  /** Hands over the point. */
  method TransferPoint(tx: NaiveTx, t: Table) returns (queries: seq<Query>, diffs: seq<Diff>)
    requires tx.ship in t && tx.opcode == OP_TRANSFER_POINT
    ensures Settles(tx, t, queries, diffs)
  {
    hide Settles, Intended, BlankKeys, Inc32;
    var p := t[tx.ship];
    queries, diffs := [], [];
    if p.dominion == ON_L2 && (tx.proxy == PROXY_OWNER || tx.proxy == PROXY_TRANSFER) {
      p := p.(addresses := p.addresses.(owner := tx.targetAddress));
      p := p.(addresses := p.addresses.(transfer := ZERO_ADDRESS));
      diffs := diffs + [DiffOf(tx, tx.ship, DIFF_CHANGED_OWNER, p.addresses.owner)];
      if tx.flag {
        var more;
        p, more := Reset(tx, p);
        diffs := diffs + more;
      }
      assert p == Transferred(tx, t[tx.ship]);
      TransferredAnyNonces(tx, t[tx.ship], Counted(tx, t)[tx.ship]);
      assert Revised(tx, Counted(tx, t)[tx.ship]) == Transferred(tx, Counted(tx, t)[tx.ship]);
      hide Transferred, Configured, Write, BumpNonce, Revised;
      RevisionSettles(tx, t, NewOwnerColumns, p, diffs);
      queries := [Query(Update, NewOwnerColumns, tx.ship, p)];
    } else {
      UnpermittedSettles(tx, t);
    }
  }

  /** Creates a point on layer 2. */
  method Spawn(tx: NaiveTx, t: Table) returns (r: Result<Effect>)
    requires tx.ship in t && tx.opcode == OP_SPAWN
    ensures r.Panic? <==> Aborts(tx, t)
    ensures r.Ok? ==> Settles(tx, t, r.value.queries, r.value.diffs)
  {
    var p := t[tx.ship];
    var queries, diffs := [], [];
    if tx.ship == Parent(tx.targetShip) && !(p.dominion != ON_L2 && p.dominion != SPAWNS_ON_L2)
       && !(tx.proxy != PROXY_OWNER && tx.proxy != PROXY_SPAWN) {
      if tx.targetShip in t {
        if !Readable(t[tx.targetShip]) {
          return Panic;
        }
      } else {
        var q := ZERO_POINT.(hasSponsor := true, sponsor := tx.ship, dominion := ON_L2);
        if (tx.proxy == PROXY_OWNER && tx.targetAddress == p.addresses.owner)
           || (tx.proxy == PROXY_SPAWN && tx.targetAddress == p.addresses.spawn) {
          q := q.(addresses := q.addresses.(owner := tx.targetAddress));
        } else {
          q := q.(addresses := q.addresses.(owner := p.addresses.owner));
          q := q.(addresses := q.addresses.(transfer := tx.targetAddress));
        }
        diffs := diffs + [DiffOf(tx, tx.targetShip, DIFF_SPAWNED, [])];
        queries := queries + [Query(Insert, NewbornColumns, tx.targetShip, q)];
      }
    }
    return Ok(Effect(queries, diffs));
  }

  /** Installs networking keys; a breach and a change of keys are counted. */
  method Install(tx: NaiveTx, point: Point) returns (p: Point, diffs: seq<Diff>)
    ensures p == Configured(tx, point) && diffs == KeyDiffs(tx, point)
  {
    hide Inc32, ToBE32;
    p, diffs := point, [];
    if tx.flag {
      p := p.(rift := Inc32(p.rift));
      diffs := diffs + [DiffOf(tx, tx.ship, DIFF_BREACHED, [])];
    }
    if p.keys.suite != tx.suite || p.keys.encryption != tx.encryptionKey || p.keys.auth != tx.authKey {
      p := p.(life := Inc32(p.life));
      diffs := diffs
      + [DiffOf(tx, tx.ship, DIFF_RESET_KEYS, ToBE32(tx.suite) + (tx.authKey + tx.encryptionKey))];
    }
    p := p.(keys := Keys(tx.suite, tx.authKey, tx.encryptionKey));
  }

  method ConfigureKeys(tx: NaiveTx, t: Table) returns (queries: seq<Query>, diffs: seq<Diff>)
    requires tx.ship in t && tx.opcode == OP_CONFIGURE_KEYS
    ensures Settles(tx, t, queries, diffs)
  {
    hide Settles, Intended, Configured, Transferred, KeyDiffs;
    var p := t[tx.ship];
    queries, diffs := [], [];
    if p.dominion == ON_L2 && (tx.proxy == PROXY_OWNER || tx.proxy == PROXY_MANAGEMENT) {
      p, diffs := Install(tx, p);
      ConfiguredAnyNonces(tx, t[tx.ship], Counted(tx, t)[tx.ship]);
      assert Revised(tx, Counted(tx, t)[tx.ship]) == Configured(tx, Counted(tx, t)[tx.ship]);
      hide Write, BumpNonce, Revised;
      RevisionSettles(tx, t, KeysLifeRiftColumns, p, diffs);
      queries := [Query(Update, KeysLifeRiftColumns, tx.ship, p)];
    } else {
      UnpermittedSettles(tx, t);
    }
  }

  /** Requests or cancels the source's own escape. */
  method Escape(tx: NaiveTx, t: Table) returns (queries: seq<Query>, diffs: seq<Diff>)
    requires tx.ship in t && OP_ESCAPE <= tx.opcode <= OP_CANCEL_ESCAPE
    ensures Settles(tx, t, queries, diffs)
  {
    var p := t[tx.ship];
    queries, diffs := [], [];
    match tx.opcode {
      case 3 =>
        if (tx.proxy == PROXY_OWNER || tx.proxy == PROXY_MANAGEMENT) && Rank(tx.targetShip) + 1 == Rank(tx.ship) {
          p := p.(isEscapeRequested := true, escapeRequestedTo := tx.targetShip);
          queries := queries + [Query(Update, EscapeColumns, tx.ship, p)];
          diffs := diffs
          + [DiffOf(tx, tx.ship, DIFF_ESCAPE_REQUESTED, AzimuthNumberToData(p.escapeRequestedTo))];
        }
      case 4 =>
        if tx.proxy == PROXY_OWNER || tx.proxy == PROXY_MANAGEMENT {
          p := p.(isEscapeRequested := false, escapeRequestedTo := 0);
          queries := queries + [Query(Update, EscapeColumns, tx.ship, p)];
          diffs := diffs + [DiffOf(tx, tx.ship, DIFF_ESCAPE_CANCELED, AzimuthNumberToData(p.escapeRequestedTo))];
        }
    }
  }

  /** Adopts, rejects or disowns another point. */
  method AnswerTarget(tx: NaiveTx, t: Table) returns (r: Result<Effect>)
    requires tx.ship in t && OP_ADOPT <= tx.opcode <= OP_DETACH
    ensures r.Panic? <==> Aborts(tx, t)
    ensures r.Ok? ==> Settles(tx, t, r.value.queries, r.value.diffs)
  {
    var queries, diffs := [], [];
    match tx.opcode {
      case 5 =>
        if tx.proxy == PROXY_OWNER || tx.proxy == PROXY_MANAGEMENT {
          if GetPoint(t, tx.targetShip).Panic? {
            return Panic;
          }
          var target := t[tx.targetShip];
          if target.escapeRequestedTo == tx.ship {
            target := target.(isEscapeRequested := false, escapeRequestedTo := 0, hasSponsor := true,
                              sponsor := tx.ship);
            queries := queries + [Query(Update, EscapeSponsorColumns, tx.targetShip, target)];
            diffs := diffs
            + [DiffOf(tx, tx.targetShip, DIFF_ESCAPE_ACCEPTED, AzimuthNumberToData(target.escapeRequestedTo))];
          }
        }
      case 6 =>
        if tx.proxy == PROXY_OWNER || tx.proxy == PROXY_MANAGEMENT {
          if GetPoint(t, tx.targetShip).Panic? {
            return Panic;
          }
          var target := t[tx.targetShip];
          if target.escapeRequestedTo == tx.ship {
            target := target.(isEscapeRequested := false, escapeRequestedTo := 0);
            queries := queries + [Query(Update, EscapeColumns, tx.targetShip, target)];
            diffs := diffs
            + [DiffOf(tx, tx.targetShip, DIFF_ESCAPE_REJECTED, AzimuthNumberToData(target.escapeRequestedTo))];
          }
        }
      case 7 =>
        if tx.proxy == PROXY_OWNER || tx.proxy == PROXY_MANAGEMENT {
          if GetPoint(t, tx.targetShip).Panic? {
            return Panic;
          }
          var target := t[tx.targetShip];
          if tx.ship == target.sponsor {
            target := target.(hasSponsor := false, sponsor := 0);
            queries := queries + [Query(Update, SponsorColumns, tx.targetShip, target)];
            diffs := diffs + [DiffOf(tx, tx.targetShip, DIFF_LOST_SPONSOR, [])];
          }
        }
    }
    return Ok(Effect(queries, diffs));
  }

  /** Changes one of the proxies that layer 2 manages. */
  method SetProxy(tx: NaiveTx, t: Table) returns (queries: seq<Query>, diffs: seq<Diff>)
    requires tx.ship in t && OP_SET_MANAGEMENT_PROXY <= tx.opcode <= OP_SET_TRANSFER_PROXY
    ensures Settles(tx, t, queries, diffs)
  {
    var p := t[tx.ship];
    queries, diffs := [], [];
    match tx.opcode {
      case 8 =>
        if p.dominion == ON_L2 && (tx.proxy == PROXY_OWNER || tx.proxy == PROXY_MANAGEMENT) {
          p := p.(addresses := p.addresses.(management := tx.targetAddress));
          queries := queries + [Query(Update, ManagementColumn, tx.ship, p)];
          diffs := diffs + [DiffOf(tx, tx.ship, DIFF_CHANGED_MANAGEMENT_PROXY, p.addresses.management)];
        }
      case 9 =>
        if (p.dominion == ON_L2 || p.dominion == SPAWNS_ON_L2)
           && (tx.proxy == PROXY_OWNER || tx.proxy == PROXY_SPAWN) && Rank(tx.ship) != PLANET {
          p := p.(addresses := p.addresses.(spawn := tx.targetAddress));
          queries := queries + [Query(Update, SpawnColumn, tx.ship, p)];
          diffs := diffs + [DiffOf(tx, tx.ship, DIFF_CHANGED_SPAWN_PROXY, p.addresses.spawn)];
        }
      case 10 =>
        if p.dominion == ON_L2 && (tx.proxy == PROXY_OWNER || tx.proxy == PROXY_TRANSFER) {
          p := p.(addresses := p.addresses.(transfer := tx.targetAddress));
          queries := queries + [Query(Update, TransferColumn, tx.ship, p)];
          diffs := diffs + [DiffOf(tx, tx.ship, DIFF_CHANGED_TRANSFER_PROXY, p.addresses.transfer)];
        }
    }
  }

  method Effects(tx: NaiveTx, t: Table) returns (r: Result<Effect>)
    ensures r.Panic? <==> GetPoint(t, tx.ship).Panic? || Aborts(tx, t)
    ensures r.Ok? ==> ExecAll(t, r.value.queries) == Ok(Intended(tx, t)) && r.value.diffs == IntendedDiffs(tx, t)
  {
    if GetPoint(t, tx.ship).Panic? {
      return Panic;
    }
    hide Settles, Intended, IntendedDiffs;
    var count := Query(Update, NonceColumn(tx.proxy), tx.ship, t[tx.ship]);
    var queries, diffs;
    if tx.opcode == OP_TRANSFER_POINT {
      queries, diffs := TransferPoint(tx, t);
    } else if tx.opcode == OP_SPAWN {
      var spawned := Spawn(tx, t);
      if spawned.Panic? {
        return Panic;
      }
      queries, diffs := spawned.value.queries, spawned.value.diffs;
    } else if tx.opcode == OP_CONFIGURE_KEYS {
      queries, diffs := ConfigureKeys(tx, t);
    } else if OP_ESCAPE <= tx.opcode <= OP_CANCEL_ESCAPE {
      queries, diffs := Escape(tx, t);
    } else if OP_ADOPT <= tx.opcode <= OP_DETACH {
      var answer := AnswerTarget(tx, t);
      if answer.Panic? {
        return Panic;
      }
      queries, diffs := answer.value.queries, answer.value.diffs;
    } else if OP_SET_MANAGEMENT_PROXY <= tx.opcode <= OP_SET_TRANSFER_PROXY {
      queries, diffs := SetProxy(tx, t);
    } else {
      return Panic;
    }
    DeferredIsAtomic(tx, t, queries, diffs);
    assert diffs == IntendedDiffs(tx, t) by {
      SettlesDiffs(tx, t, queries, diffs);
    }
    return Ok(Effect([count] + queries, diffs));
  }

  lemma SettlesDiffs(tx: NaiveTx, t: Table, queries: seq<Query>, diffs: seq<Diff>)
    requires tx.ship in t && Settles(tx, t, queries, diffs)
    ensures diffs == IntendedDiffs(tx, t)
  {
  }

  /**
   * Statements computed from rows as they were before the nonce update make the intended change, even when the
   * subject is the source itself.
   */
  lemma DeferredIsAtomic(tx: NaiveTx, t: Table, queries: seq<Query>, diffs: seq<Diff>)
    requires tx.ship in t && Settles(tx, t, queries, diffs)
    ensures ExecAll(t, [Query(Update, NonceColumn(tx.proxy), tx.ship, t[tx.ship])] + queries) == Ok(Intended(tx, t))
  {
    var count := Query(Update, NonceColumn(tx.proxy), tx.ship, t[tx.ship]);
    assert Exec(t, count) == Ok(Counted(tx, t));
    assert ([count] + queries)[1..] == queries;
    assert ExecAll(t, [count] + queries) == ExecAll(Counted(tx, t), queries);
    hide Intended, Permitted, IntendedDiffs;
    if queries != [] {
      assert queries[1..] == [];
      assert ExecAll(Counted(tx, t), queries) == ExecAll(Intended(tx, t), queries[1..]);
    }
  }
}

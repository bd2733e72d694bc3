/** Who can change what of a point on layer 2, where no contract stands behind the program's guards. */
module Authority {
  import opened Outcomes
  import opened Points
  import opened BatchParser
  import opened ByteStrings
  import opened Signing
  import AzimuthEvents
  import N = NaiveEffects
  import opened Runs
  import opened Layers
  import opened NonceTheorems
  import opened Moments

  /** What layer 2 decides about its points. */
  datatype Asset =
    | OwnerAddress
    | SpawnAddress
    | ManagementAddress
    | VotingAddress
    | TransferAddress
    | NetworkKeys // with life and rift
    | NonceOfRole(proxy: nat)

  predicate SameAsset(a: Asset, p: Point, q: Point) {
    match a
    case OwnerAddress => p.addresses.owner == q.addresses.owner
    case SpawnAddress => p.addresses.spawn == q.addresses.spawn
    case ManagementAddress => p.addresses.management == q.addresses.management
    case VotingAddress => p.addresses.voting == q.addresses.voting
    case TransferAddress => p.addresses.transfer == q.addresses.transfer
    case NetworkKeys => p.keys == q.keys && p.life == q.life && p.rift == q.rift
    case NonceOfRole(proxy) => NonceOf(p, proxy) == NonceOf(q, proxy)
  }

  /** The owner, or a role that may act in the owner's place. */
  predicate Transfers(tx: NaiveTx) {
    tx.opcode == OP_TRANSFER_POINT && N.ActsAs(tx, PROXY_TRANSFER)
  }

  /** Whether opcode and role of a transaction entitle it to change this of its source. */
  predicate Entitled(tx: NaiveTx, a: Asset) {
    var resets := Transfers(tx) && tx.flag;
    match a
    case OwnerAddress => Transfers(tx)
    case SpawnAddress => resets || (tx.opcode == OP_SET_SPAWN_PROXY && N.ActsAs(tx, PROXY_SPAWN))
    case ManagementAddress => resets || (tx.opcode == OP_SET_MANAGEMENT_PROXY && N.ActsAs(tx, PROXY_MANAGEMENT))
    case VotingAddress => resets
    case TransferAddress => Transfers(tx) || (tx.opcode == OP_SET_TRANSFER_PROXY && N.ActsAs(tx, PROXY_TRANSFER))
    case NetworkKeys => resets || (tx.opcode == OP_CONFIGURE_KEYS && N.ActsAs(tx, PROXY_MANAGEMENT))
    case NonceOfRole(proxy) => tx.proxy == proxy
  }

  /** The transaction was sent by `n`, which may change this by it. */
  predicate Authorises(tx: NaiveTx, n: Ship, a: Asset) {
    tx.ship == n && Entitled(tx, a)
  }

  /** What a permitted transaction does not entitle to, it leaves alone. */
  lemma RevisionKeeps(tx: NaiveTx, t: Table, p: Point, a: Asset)
    requires tx.ship in t && N.Permitted(tx, t) && tx.opcode != OP_SPAWN
    requires !Authorises(tx, N.Subject(tx), a)
    ensures SameAsset(a, p, N.Revised(tx, p)) && N.Revised(tx, p).dominion == p.dominion
  {
    hide N.BlankKeys, Inc32;
  }

  lemma CountKeeps(tx: NaiveTx, p: Point, a: Asset)
    requires !Entitled(tx, a)
    ensures SameAsset(a, p, BumpNonce(p, tx.proxy)) && BumpNonce(p, tx.proxy).dominion == p.dominion
  {
  }

  lemma SameAssetTwice(a: Asset, p: Point, q: Point, r: Point)
    requires SameAsset(a, p, q) && SameAsset(a, q, r)
    ensures SameAsset(a, p, r)
  {
  }

  lemma L2Keeps(recover: Recovery, w: World, tx: NaiveTx, w': World, n: Ship, a: Asset)
    requires ApplyTx(recover, w, tx) == Ok(w') && n in w.points
    requires !(Accepted(recover, w, tx) && Authorises(tx, n, a))
    ensures n in w'.points && SameAsset(a, w.points[n], w'.points[n])
    ensures w'.points[n].dominion == w.points[n].dominion
  {
    hide N.IntendedDiffs, Verdict, N.Aborts, N.Intended, N.Revised, N.Permitted, Entitled, SameAsset, BumpNonce;
    SameToItself(a, w.points[n]);
    if Accepted(recover, w, tx) {
      N.IntendedRow(tx, w.points, n);
      var p := if n == tx.ship then BumpNonce(w.points[n], tx.proxy) else w.points[n];
      if n == tx.ship {
        CountKeeps(tx, w.points[n], a);
      }
      if N.Permitted(tx, w.points) && tx.opcode != OP_SPAWN && n == N.Subject(tx) {
        RevisionKeeps(tx, w.points, p, a);
        SameAssetTwice(a, w.points[n], p, N.Revised(tx, p));
      }
    }
  }

  lemma SameToItself(a: Asset, p: Point)
    ensures SameAsset(a, p, p)
  {
  }

  lemma L1Keeps(w: World, e: AzimuthEvents.AzimuthEvent, id: nat, w': World, n: Ship, a: Asset)
    requires DominionsValid(w.points) && ApplyAzimuth(w, e, id) == Ok(w')
    requires n in w.points && w.points[n].dominion == ON_L2
    ensures n in w'.points && SameAsset(a, w.points[n], w'.points[n]) && w'.points[n].dominion == ON_L2
  {
    L1Writes(w, e, id, w', n);
    hide ApplyAzimuth;
  }

  /** None of the accepted transactions may change this of `n`. */
  predicate NoneAuthorises(receipts: seq<Receipt>, n: Ship, a: Asset) {
    forall i :: 0 <= i < |receipts| ==> !Authorises(receipts[i].tx, n, a)
  }

  lemma NoneOfParts(r: seq<Receipt>, s: seq<Receipt>, n: Ship, a: Asset)
    ensures NoneAuthorises(r + s, n, a) <==> NoneAuthorises(r, n, a) && NoneAuthorises(s, n, a)
  {
    hide Authorises;
    if NoneAuthorises(r + s, n, a) {
      forall i | 0 <= i < |r| ensures !Authorises(r[i].tx, n, a) {
        assert (r + s)[i] == r[i];
      }
      forall i | 0 <= i < |s| ensures !Authorises(s[i].tx, n, a) {
        assert (r + s)[|r| + i] == s[i];
      }
    }
  }

  /** If no receipt of a run authorises this, neither does its first step, nor a receipt of the others. */
  lemma NoneAtFirst(recover: Recovery, w: World, steps: seq<Step>, w': World, n: Ship, a: Asset)
    requires steps != [] && Do(recover, w, steps[0]) == Ok(w')
    requires NoneAuthorises(Receipts(recover, w, steps), n, a)
    ensures steps[0].L2? && Accepted(recover, w, steps[0].tx) ==> !Authorises(steps[0].tx, n, a)
    ensures NoneAuthorises(Receipts(recover, w', steps[1..]), n, a)
  {
    ReceiptsNext(recover, w, steps, w');
    hide Do, Accepted, MessageFor, Authorises, Receipts;
    var rest := Receipts(recover, w', steps[1..]);
    if steps[0].L2? && Accepted(recover, w, steps[0].tx) {
      var head := [ReceiptOf(recover, w, steps[0].tx)];
      NoneOfParts(head, rest, n, a);
      assert !Authorises(head[0].tx, n, a);
    } else {
      NoneOfParts([], rest, n, a);
    }
  }

  /**
   * Over any interleaving of both layers: of a point on layer 2 nothing changes unless some accepted transaction of the
   * point itself, signed by the role it acted in, was entitled to that change.
   */
  lemma {:induction false} OnlyAuthorised(recover: Recovery, w: World, steps: seq<Step>, n: Ship, a: Asset)
    requires DominionsValid(w.points) && Run(recover, w, steps).Ok?
    requires n in w.points && w.points[n].dominion == ON_L2
    requires NoneAuthorises(Receipts(recover, w, steps), n, a)
    ensures var t := Run(recover, w, steps).value.points;
            n in t && SameAsset(a, w.points[n], t[n]) && t[n].dominion == ON_L2
    decreases |steps|
  {
    hide ApplyAzimuth, ApplyTx, Accepted, Authorises, SameAsset, Receipts;
    SameToItself(a, w.points[n]);
    if steps != [] {
      var w' := Do(recover, w, steps[0]).value;
      SingleWriter(recover, w, steps[0], w');
      NoneAtFirst(recover, w, steps, w', n, a);
      match steps[0] {
        case L1(id, e) => L1Keeps(w, e, id, w', n, a);
        case L2(tx) => L2Keeps(recover, w, tx, w', n, a);
      }
      OnlyAuthorised(recover, w', steps[1..], n, a);
      SameAssetTwice(a, w.points[n], w'.points[n], Run(recover, w, steps).value.points[n]);
    }
  }

  /**
   * In particular the addresses, nonces, keys, life, rift and dominion of a point on layer 2 change only through
   * accepted transactions of the point itself.
   */
  lemma OnlyOwnTransactions(recover: Recovery, w: World, steps: seq<Step>, n: Ship)
    requires DominionsValid(w.points) && Run(recover, w, steps).Ok?
    requires n in w.points && w.points[n].dominion == ON_L2
    requires forall i :: 0 <= i < |Receipts(recover, w, steps)| ==> Receipts(recover, w, steps)[i].tx.ship != n
    ensures var t := Run(recover, w, steps).value.points;
            n in t && SameIdentity(w.points[n], t[n]) && t[n].nonces == w.points[n].nonces && t[n].dominion == ON_L2
  {
    hide Run, Receipts, DominionsValid, Entitled;
    forall a: Asset ensures n in Run(recover, w, steps).value.points
                            && SameAsset(a, w.points[n], Run(recover, w, steps).value.points[n])
    {
      OnlyAuthorised(recover, w, steps, n, a);
    }
    OnlyAuthorised(recover, w, steps, n, OwnerAddress);
    AllAssets(w.points[n], Run(recover, w, steps).value.points[n]);
  }

  lemma AllAssets(p: Point, q: Point)
    requires forall a: Asset :: SameAsset(a, p, q)
    ensures SameIdentity(p, q) && q.nonces == p.nonces
  {
    assert SameAsset(OwnerAddress, p, q) && SameAsset(SpawnAddress, p, q) && SameAsset(ManagementAddress, p, q);
    assert SameAsset(VotingAddress, p, q) && SameAsset(TransferAddress, p, q) && SameAsset(NetworkKeys, p, q);
    assert SameAsset(NonceOfRole(0), p, q) && SameAsset(NonceOfRole(1), p, q) && SameAsset(NonceOfRole(2), p, q);
    assert SameAsset(NonceOfRole(3), p, q) && SameAsset(NonceOfRole(4), p, q);
  }

  // ---------------------------------------------------------------- by whom it was signed

  /** `address` signed the transaction under `nonce`. */
  ghost predicate SignedBy(recover: Recovery, tx: NaiveTx, nonce: nat, address: Address) {
    nonce < TWO_32 && recover(SignedMessage(nonce, tx.raw), NormalSignature(tx.signature)) == Some(address)
  }

  ghost predicate OwnerSigned(recover: Recovery, tx: NaiveTx, p: Point) {
    tx.proxy == 0 && SignedBy(recover, tx, p.nonces.owner, p.addresses.owner)
  }

  ghost predicate SpawnerSigned(recover: Recovery, tx: NaiveTx, p: Point) {
    tx.proxy == 1 && SignedBy(recover, tx, p.nonces.spawn, p.addresses.spawn)
  }

  ghost predicate ManagerSigned(recover: Recovery, tx: NaiveTx, p: Point) {
    tx.proxy == 2 && SignedBy(recover, tx, p.nonces.management, p.addresses.management)
  }

  ghost predicate VoterSigned(recover: Recovery, tx: NaiveTx, p: Point) {
    tx.proxy == 3 && SignedBy(recover, tx, p.nonces.voting, p.addresses.voting)
  }

  ghost predicate TransferrerSigned(recover: Recovery, tx: NaiveTx, p: Point) {
    tx.proxy == 4 && SignedBy(recover, tx, p.nonces.transfer, p.addresses.transfer)
  }

  /** Acceptance is a signature by the address that the row of the moment has in the column of the role. */
  lemma AcceptedIsSigned(recover: Recovery, u: World, tx: NaiveTx)
    requires tx.ship in u.points && Readable(u.points[tx.ship])
    ensures var p := u.points[tx.ship];
            Accepted(recover, u, tx) <==>
            || OwnerSigned(recover, tx, p) || SpawnerSigned(recover, tx, p) || ManagerSigned(recover, tx, p)
            || VoterSigned(recover, tx, p) || TransferrerSigned(recover, tx, p)
  {
    RoleColumns(recover, tx, u.points[tx.ship]);
    hide Verdict, SignedMessage, NormalSignature;
  }

  /** The signers and opcodes that may change this of a layer 2 point, given its row at that moment. */
  ghost predicate KeyHolderActs(recover: Recovery, tx: NaiveTx, p: Point, a: Asset) {
    var owner, transferrer := OwnerSigned(recover, tx, p), TransferrerSigned(recover, tx, p);
    var resets := tx.opcode == 0 && tx.flag && (owner || transferrer);
    match a
    case OwnerAddress => tx.opcode == 0 && (owner || transferrer)
    case SpawnAddress => resets || (tx.opcode == 9 && (owner || SpawnerSigned(recover, tx, p)))
    case ManagementAddress => resets || (tx.opcode == 8 && (owner || ManagerSigned(recover, tx, p)))
    case VotingAddress => resets
    case TransferAddress => (tx.opcode == 0 || tx.opcode == 10) && (owner || transferrer)
    case NetworkKeys => resets || (tx.opcode == 2 && (owner || ManagerSigned(recover, tx, p)))
    case NonceOfRole(proxy) =>
      match proxy
      case 0 => owner
      case 1 => SpawnerSigned(recover, tx, p)
      case 2 => ManagerSigned(recover, tx, p)
      case 3 => VoterSigned(recover, tx, p)
      case 4 => transferrer
      case _ => false
  }

  lemma EntitledIsKeyHolder(recover: Recovery, u: World, tx: NaiveTx, a: Asset)
    requires Accepted(recover, u, tx) && Entitled(tx, a)
    ensures KeyHolderActs(recover, tx, u.points[tx.ship], a)
  {
    AcceptedIsSigned(recover, u, tx);
    AcceptedProxy(recover, u, tx);
    hide Accepted, SignedBy;
  }

  /**
   * Over any interleaving of both layers: if something of a point on layer 2 is different at the end, then at some
   * moment of the run the point's own owner, or its own proxy for that purpose, had signed a transaction for it, going
   * by the addresses and nonces in the point's row at that very moment.
   */
  lemma OnlyKeyHolders(recover: Recovery, w: World, steps: seq<Step>, n: Ship, a: Asset)
    returns (i: nat, u: World, u': World)
    requires DominionsValid(w.points) && Run(recover, w, steps).Ok?
    requires n in w.points && w.points[n].dominion == ON_L2
    requires n in Run(recover, w, steps).value.points
    requires !SameAsset(a, w.points[n], Run(recover, w, steps).value.points[n])
    ensures Moment(recover, w, steps, i, u, u') && n in u.points
    ensures steps[i].L2? && steps[i].tx.ship == n && KeyHolderActs(recover, steps[i].tx, u.points[n], a)
  {
    SameToItself(a, w.points[n]);
    i, u, u' := SomeMoment(recover, w, steps, (v: World) => n in v.points && SameAsset(a, w.points[n], v.points[n]));
    Handover(recover, w, steps[..i]);
    hide ApplyAzimuth, ApplyTx, Accepted, KeyHolderActs, Authorises, Run, SameAsset;
    match steps[i] {
      case L1(id, e) =>
        L1Keeps(u, e, id, u', n, a);
        SameAssetChain(a, w.points[n], u.points[n], u'.points[n]);
        assert false;
      case L2(tx) =>
        SingleWriter(recover, u, steps[i], u');
        SameAssetChain(a, w.points[n], u.points[n], u'.points[n]);
        if !(Accepted(recover, u, tx) && Authorises(tx, n, a)) {
          L2Keeps(recover, u, tx, u', n, a);
          assert false;
        }
        assert tx.ship == n && Entitled(tx, a) by {
          AuthorisesIs(tx, n, a);
        }
        EntitledIsKeyHolder(recover, u, tx, a);
    }
  }

  lemma AuthorisesIs(tx: NaiveTx, n: Ship, a: Asset)
    requires Authorises(tx, n, a)
    ensures tx.ship == n && Entitled(tx, a)
  {
  }

  lemma SameAssetChain(a: Asset, p: Point, q: Point, r: Point)
    requires SameAsset(a, p, q) != SameAsset(a, p, r)
    ensures !SameAsset(a, q, r)
  {
  }
}

/**
 * The `points` table (pkg/db/point.go, pkg/db/schema.sql) and the deferred column writes that the program sends to it.
 * Columns that are always treated alike are grouped: a role's addresses, a role's nonces, the networking keys.
 */
module Points {
  import opened ByteStrings
  import opened Outcomes

  type Ship = uint32
  type Address = Bytes

  const ZERO_ADDRESS: Address := Zeros(20)

  const L2_DEPOSIT_ADDRESS: Address := Repeated(0x11, 20)

  // Ranks.
  const GALAXY := 0
  const STAR := 1
  const PLANET := 2

  // Dominions: on layer 1, on layer 2, or on layer 1 but spawning on layer 2.
  const ON_L1 := 1
  const ON_L2 := 2
  const SPAWNS_ON_L2 := 3

  // The roles a layer 2 transaction may be signed by.
  const PROXY_OWNER := 0
  const PROXY_SPAWN := 1
  const PROXY_MANAGEMENT := 2
  const PROXY_VOTING := 3
  const PROXY_TRANSFER := 4

  /** The natural parent: a planet's star, a star's galaxy. */
  function Parent(n: Ship): Ship {
    if n > 0xffff then n % 0x1_0000 else if n > 0xff then n % 0x100 else 0
  }

  function Rank(n: Ship): nat {
    if n <= 0xff then GALAXY else if n <= 0xffff then STAR else PLANET
  }

  /** The lowest byte of a star is its galaxy, the lowest two of a planet its star. */
  lemma ParentIsLowPart(n: Ship)
    ensures n >= 0x1_0000 ==> Parent(n) < 0x1_0000 && exists k: nat :: n == k * 0x1_0000 + Parent(n)
    ensures 0x100 <= n < 0x1_0000 ==> Parent(n) < 0x100 && exists k: nat :: n == k * 0x100 + Parent(n)
    ensures n < 0x100 ==> Parent(n) == 0
    ensures Rank(n) == (if n < 0x100 then 0 else if n < 0x1_0000 then 1 else 2)
  {
    if n >= 0x1_0000 {
      assert n == (n / 0x1_0000) * 0x1_0000 + Parent(n);
    } else if n >= 0x100 {
      assert n == (n / 0x100) * 0x100 + Parent(n);
    }
  }

  /** The two addresses that stand for nobody and for layer 2. */
  lemma FixedAddresses()
    ensures forall a: Address :: a == ZERO_ADDRESS <==> |a| == 20 && forall i :: 0 <= i < 20 ==> a[i] == 0
    ensures forall a: Address :: a == L2_DEPOSIT_ADDRESS <==> |a| == 20 && forall i :: 0 <= i < 20 ==> a[i] == 0x11
  {
  }

  /** A parent has a smaller number and, outside the galaxies, a smaller rank. */
  lemma ParentIsSenior(n: Ship)
    ensures n != 0 ==> Parent(n) < n
    ensures Rank(n) != GALAXY ==> Rank(Parent(n)) < Rank(n)
    ensures forall m: Ship :: Rank(m) < Rank(n) ==> m < n
  {
  }

  datatype Addresses = Addresses(owner: Address, spawn: Address, management: Address, voting: Address,
                                 transfer: Address)

  datatype Nonces = Nonces(owner: nat, spawn: nat, management: nat, voting: nat, transfer: nat)

  datatype Keys = Keys(suite: uint32, auth: Bytes, encryption: Bytes)

  datatype Point = Point(
    addresses: Addresses,
    nonces: Nonces,
    dominion: int,
    isActive: bool,
    rift: uint32,
    life: uint32,
    keys: Keys,
    hasSponsor: bool,
    sponsor: Ship,
    isEscapeRequested: bool,
    escapeRequestedTo: Ship)

  /** Rows by azimuth number, the primary key. */
  type Table = map<Ship, Point>

  const NO_ADDRESSES := Addresses(ZERO_ADDRESS, ZERO_ADDRESS, ZERO_ADDRESS, ZERO_ADDRESS, ZERO_ADDRESS)

  /** Go's zero `Point`; unlike a fresh row, its dominion is 0. */
  const ZERO_POINT := Point(NO_ADDRESSES, Nonces(0, 0, 0, 0, 0), 0, false, 0, 0, Keys(0, [], []), false, 0, false, 0)

  /** A row in which every column has its schema default. */
  const DEFAULT_ROW := ZERO_POINT.(dominion := ON_L1)

  function AddressOf(p: Point, proxy: nat): Address {
    match proxy
    case 0 => p.addresses.owner
    case 1 => p.addresses.spawn
    case 2 => p.addresses.management
    case 3 => p.addresses.voting
    case 4 => p.addresses.transfer
    case _ => ZERO_ADDRESS
  }

  function NonceOf(p: Point, proxy: nat): nat {
    match proxy
    case 0 => p.nonces.owner
    case 1 => p.nonces.spawn
    case 2 => p.nonces.management
    case 3 => p.nonces.voting
    case 4 => p.nonces.transfer
    case _ => 0
  }

  function BumpNonce(p: Point, proxy: nat): (q: Point)
    ensures q == p.(nonces := q.nonces)
    ensures forall k: nat :: NonceOf(q, k) == NonceOf(p, k) + (if k == proxy <= PROXY_TRANSFER then 1 else 0)
  {
    var n := p.nonces;
    match proxy
    case 0 => p.(nonces := n.(owner := n.owner + 1))
    case 1 => p.(nonces := n.(spawn := n.spawn + 1))
    case 2 => p.(nonces := n.(management := n.management + 1))
    case 3 => p.(nonces := n.(voting := n.voting + 1))
    case 4 => p.(nonces := n.(transfer := n.transfer + 1))
    case _ => p
  }

  /** The nonce columns are 64-bit in the database; scanning one into a Go uint32 fails when it does not fit. */
  predicate Readable(p: Point) {
    && p.nonces.owner < TWO_32 && p.nonces.spawn < TWO_32 && p.nonces.management < TWO_32
    && p.nonces.voting < TWO_32 && p.nonces.transfer < TWO_32
  }

  lemma ReadableNonce(p: Point, proxy: nat)
    requires Readable(p)
    ensures NonceOf(p, proxy) < TWO_32
  {
  }

  /** `select * from points where azimuth_number = n`, where a missing or unreadable row panics. */
  function GetPoint(t: Table, n: Ship): Result<Point> {
    if n in t && Readable(t[n]) then Ok(t[n]) else Panic
  }

  function GetDominion(t: Table, n: Ship): Result<int> {
    if n in t then Ok(t[n].dominion) else Panic
  }

  ghost predicate SameApartFromNonces(p: Point, q: Point) {
    q == p.(nonces := q.nonces)
  }

  // ---------------------------------------------------------------- deferred queries

  /** The column lists that occur in the program's statements. */
  datatype Columns =
    | SponsorColumns
    | ActiveColumn
    | ActiveSponsorColumns
    | DominionColumn
    | OwnerColumn
    | SpawnColumn
    | ManagementColumn
    | VotingColumn
    | TransferColumn
    | EscapeColumns
    | EscapeSponsorColumns
    | HasSponsorColumn
    | RiftColumn
    | KeysLifeColumns
    | KeysLifeRiftColumns
    | NewOwnerColumns
    | NewbornColumns
    | NonceColumn(proxy: nat)

  /** insert; insert ... on conflict do update; update ... where azimuth_number = ... */
  datatype Mode = Insert | Upsert | Update

  /** A statement and the point it is bound to; only the listed columns of the bound point are written. */
  datatype Query = Query(mode: Mode, columns: Columns, number: Ship, bound: Point)

  function Write(columns: Columns, row: Point, b: Point): Point {
    var a := row.addresses;
    match columns
    case SponsorColumns => row.(hasSponsor := b.hasSponsor, sponsor := b.sponsor)
    case ActiveColumn => row.(isActive := b.isActive)
    case ActiveSponsorColumns => row.(isActive := b.isActive, sponsor := b.sponsor, hasSponsor := b.hasSponsor)
    case DominionColumn => row.(dominion := b.dominion)
    case OwnerColumn => row.(addresses := a.(owner := b.addresses.owner))
    case SpawnColumn => row.(addresses := a.(spawn := b.addresses.spawn))
    case ManagementColumn => row.(addresses := a.(management := b.addresses.management))
    case VotingColumn => row.(addresses := a.(voting := b.addresses.voting))
    case TransferColumn => row.(addresses := a.(transfer := b.addresses.transfer))
    case EscapeColumns => row.(isEscapeRequested := b.isEscapeRequested, escapeRequestedTo := b.escapeRequestedTo)
    case EscapeSponsorColumns =>
      row.(isEscapeRequested := b.isEscapeRequested, escapeRequestedTo := b.escapeRequestedTo,
           hasSponsor := b.hasSponsor, sponsor := b.sponsor)
    case HasSponsorColumn => row.(hasSponsor := b.hasSponsor)
    case RiftColumn => row.(rift := b.rift)
    case KeysLifeColumns => row.(keys := b.keys, life := b.life)
    case KeysLifeRiftColumns => row.(keys := b.keys, life := b.life, rift := b.rift)
    case NewOwnerColumns => row.(addresses := b.addresses, life := b.life, rift := b.rift, keys := b.keys)
    case NewbornColumns =>
      row.(addresses := a.(owner := b.addresses.owner, transfer := b.addresses.transfer),
           hasSponsor := b.hasSponsor, sponsor := b.sponsor, dominion := b.dominion)
    case NonceColumn(proxy) => BumpNonce(row, proxy)
  }

  /** A primary key clash panics; an update of a missing row does nothing. */
  function Exec(t: Table, q: Query): Result<Table> {
    match q.mode
    case Insert => if q.number in t then Panic else Ok(t[q.number := Write(q.columns, DEFAULT_ROW, q.bound)])
    case Upsert =>
      Ok(t[q.number := Write(q.columns, if q.number in t then t[q.number] else DEFAULT_ROW, q.bound)])
    case Update => if q.number in t then Ok(t[q.number := Write(q.columns, t[q.number], q.bound)]) else Ok(t)
  }

  /** The statements in order; the first failure panics. */
  function ExecAll(t: Table, queries: seq<Query>): Result<Table>
    decreases |queries|
  {
    if queries == [] then Ok(t)
    else
      var t' :- Exec(t, queries[0]);
      ExecAll(t', queries[1..])
  }
}

/** The control plane's tables and its transactions.  Each transaction is one atomic step; a refused
    one changes nothing.  A table row is kept in two parts: the billing columns (`subs`) and the
    placement columns (`seats` for public_ips, `extents` for ip_blocks). */
module Tables {
  import opened Common
  import opened Ledger
  import Plans = SalePlans

  const DAY := 86_400_000
  const CYCLE := 31 * DAY
  const GRACE := 3 * DAY

  /** `Current` is 'active' for tunnels and blocks and 'allocated' for addresses; `Closed` is
      'deleted', 'released' and 'available'; `Withheld` is 'reserved' or 'blacklisted'. */
  datatype Status = Provisioning | Current | Suspended | Closed | Withheld

  datatype Sub = Sub(owner: Option<User>, status: Status, price: Option<nat>, next: Option<int>,
                     suspendedAt: Option<int>, deleteAfter: Option<int>)

  datatype Seat = Seat(pool: nat, tunnel: Option<nat>, block: Option<nat>)

  datatype Extent = Extent(pool: nat, net: nat, size: nat)

  datatype Pool = Pool(net: nat, size: nat, plans: seq<Plans.Plan>, avail: int, alloc: int)

  datatype Db = Db(books: Books, subs: map<Item, Sub>, seats: map<nat, Seat>, extents: map<nat, Extent>,
                   pools: map<nat, Pool>, tiers: map<nat, nat>)

  function Day(t: int): int {
    t / DAY
  }

  predicate Live(s: Sub) {
    s.status == Current || s.status == Suspended
  }

  predicate CanPay(db: Db, user: User, price: nat) {
    user in db.books.wallets && db.books.wallets[user].balance >= price
  }

  function Coalesce(x: Option<int>, y: int): Option<int> {
    if x.Some? then x else Some(y)
  }

  // ----- the billing scheduler's transactions -----

  datatype Outcome = Charged | SuspendedNow | Skipped | Error

  /** The row exists, is not deleted, is not a block member and has an owner. */
  predicate Chargeable(db: Db, it: Item) {
    && it in db.subs && db.subs[it].owner.Some?
    && (it.Tunnel? ==> db.subs[it].status != Closed)
    && (it.Ip? ==> it.addr in db.seats && db.seats[it.addr].block.None?)
  }

  /** The price locked in at purchase, or else the catalog's. */
  function PriceOf(s: Sub, live: Option<nat>): Option<nat> {
    if s.price.Some? then s.price else live
  }

  function CycleOf(s: Sub): int {
    if s.next.Some? then s.next.value else 0
  }

  /** chargeOneTunnel, chargeOnePublicIp and chargeOneIpBlock. */
  function Charge(db: Db, it: Item, now: int, live: Option<nat>): (Db, Outcome) {
    if !Chargeable(db, it) then (db, Skipped) else
    var s := db.subs[it];
    var price := PriceOf(s, live);
    if price.None? then (db, if it.Tunnel? then Skipped else Error) else
    if s.owner.value !in db.books.wallets then (db, Skipped) else
    if db.books.wallets[s.owner.value].balance < price.value then
      (db.(subs := db.subs[it := s.(status := Suspended,
                                    suspendedAt := Coalesce(s.suspendedAt, now),
                                    deleteAfter := Coalesce(s.deleteAfter, now + GRACE))]), SuspendedNow)
    else
    var key := Renewal(it, Day(CycleOf(s)));
    if Used(db.books, key) then (db, Skipped) else
    (db.(books := Post(db.books, s.owner.value, -(price.value as int), Some(key)),
         subs := db.subs[it := s.(next := Some(CycleOf(s) + CYCLE), status := Current,
                                  suspendedAt := None, deleteAfter := None)]), Charged)
  }

  predicate AnyAttached(db: Db, t: nat) {
    exists a :: a in db.seats && db.seats[a].tunnel == Some(t) && Ip(a) in db.subs && db.subs[Ip(a)].status == Current
  }

  function Detach(seats: map<nat, Seat>, t: nat): map<nat, Seat> {
    map a | a in seats :: if seats[a].tunnel == Some(t) then seats[a].(tunnel := None) else seats[a]
  }

  function Count(p: Pool, n: int): Pool {
    p.(avail := p.avail + n, alloc := if p.alloc - n < 0 then 0 else p.alloc - n)
  }

  function CountIn(pools: map<nat, Pool>, p: nat, n: int): map<nat, Pool> {
    if p in pools then pools[p := Count(pools[p], n)] else pools
  }

  /** forceCancelTunnel: its addresses are detached when any of them is allocated. */
  function CancelTunnel(db: Db, t: nat): Db {
    if Tunnel(t) !in db.subs || db.subs[Tunnel(t)].status == Closed then db else
    db.(seats := if AnyAttached(db, t) then Detach(db.seats, t) else db.seats,
        subs := db.subs[Tunnel(t) := db.subs[Tunnel(t)].(status := Closed, suspendedAt := None, deleteAfter := None)])
  }

  /** forceCancelPublicIp. */
  function CancelIp(db: Db, a: nat): Db {
    if a !in db.seats || Ip(a) !in db.subs then db else
    db.(seats := db.seats[a := db.seats[a].(tunnel := None)],
        subs := db.subs[Ip(a) := db.subs[Ip(a)].(status := Closed, owner := None, next := None,
                                                 suspendedAt := None, deleteAfter := None)],
        pools := CountIn(db.pools, db.seats[a].pool, 1))
  }

  function Members(db: Db, b: nat): set<nat> {
    set a | a in db.seats && db.seats[a].block == Some(b)
  }

  function FreedSub(s: Sub, clear: bool): Sub {
    var f := s.(status := Closed, owner := None, next := None);
    if clear then f.(suspendedAt := None, deleteAfter := None) else f
  }

  /** Every member row goes back to the pool and the block is released. */
  function FreeBlock(db: Db, b: nat, clear: bool): Db
    requires Block(b) in db.subs && b in db.extents
  {
    var ms := Members(db, b);
    var x := db.extents[b];
    var blk := db.subs[Block(b)].(status := Closed);
    db.(seats := map a | a in db.seats :: if a in ms then db.seats[a].(tunnel := None, block := None) else db.seats[a],
        subs := (map it | it in db.subs ::
                   if it.Ip? && it.addr in ms then FreedSub(db.subs[it], clear) else db.subs[it])
                [Block(b) := if clear then blk.(suspendedAt := None, deleteAfter := None) else blk],
        pools := CountIn(db.pools, x.pool, x.size))
  }

  /** forceCancelIpBlock. */
  function CancelBlock(db: Db, b: nat): Db {
    if Block(b) in db.subs && b in db.extents then FreeBlock(db, b, true) else db
  }

  function Cancel(db: Db, it: Item): Db {
    match it
    case Tunnel(t) => CancelTunnel(db, t)
    case Ip(a) => CancelIp(db, a)
    case Block(b) => CancelBlock(db, b)
  }

  /** The selection of phases 1 to 3 of a tick. */
  predicate Due(db: Db, it: Item, now: int) {
    && it in db.subs && Live(db.subs[it])
    && db.subs[it].next.Some? && db.subs[it].next.value <= now
    && (db.subs[it].deleteAfter.None? || db.subs[it].deleteAfter.value > now)
    && (it.Ip? ==> db.subs[it].owner.Some? && it.addr in db.seats && db.seats[it.addr].block.None?)
  }

  /** The selection of phase 4. */
  predicate Expired(db: Db, it: Item, now: int) {
    && it in db.subs
    && db.subs[it].deleteAfter.Some? && db.subs[it].deleteAfter.value <= now
    && (it.Tunnel? ==> db.subs[it].status != Closed)
    && (!it.Tunnel? ==> Live(db.subs[it]))
    && (it.Ip? ==> it.addr in db.seats && db.seats[it.addr].block.None?)
  }

  // ----- tunnels -----

  datatype Tx = Done(db: Db) | Refused

  function Debit(db: Db, user: User, price: nat, key: IdemKey): Tx {
    if !CanPay(db, user, price) || Used(db.books, key) then Refused
    else Done(db.(books := Post(db.books, user, -(price as int), Some(key))))
  }

  /** createTunnel and provisionGreTunnel: the id is fresh. */
  function BuyTunnel(db: Db, user: User, t: nat, tier: nat, price: nat, now: int): Tx {
    if Tunnel(t) in db.subs then Refused else
    match Debit(db, user, price, Purchase(Tunnel(t), now))
    case Refused => Refused
    case Done(d) =>
      Done(d.(subs := d.subs[Tunnel(t) := Sub(Some(user), Provisioning, Some(price), Some(now + CYCLE), None, None)],
              tiers := d.tiers[t := tier]))
  }

  /** activateTunnel / activateGreTunnel once the agent has the peer. */
  function Activate(db: Db, t: nat): Tx {
    if Tunnel(t) !in db.subs || db.subs[Tunnel(t)].status != Provisioning then Refused
    else Done(db.(subs := db.subs[Tunnel(t) := db.subs[Tunnel(t)].(status := Current)]))
  }

  predicate Owns(db: Db, user: User, it: Item) {
    it in db.subs && db.subs[it].owner == Some(user)
  }

  /** changeTunnelTier: full price, cycle restarts, suspension is lifted. */
  function ChangeTier(db: Db, user: User, t: nat, tier: nat, price: nat, now: int): Tx {
    if !Owns(db, user, Tunnel(t)) || t !in db.tiers || db.subs[Tunnel(t)].status == Closed then Refused else
    if db.tiers[t] == tier || db.subs[Tunnel(t)].status == Provisioning then Refused else
    if !CanPay(db, user, price) then Refused else
    var key := TierChange(t, db.tiers[t], tier, now / 1000);
    if Used(db.books, key) then Done(db) else
    Done(db.(books := Post(db.books, user, -(price as int), Some(key)),
             tiers := db.tiers[t := tier],
             subs := db.subs[Tunnel(t) := db.subs[Tunnel(t)].(price := Some(price), next := Some(now + CYCLE),
                                                              status := Current, suspendedAt := None,
                                                              deleteAfter := None)]))
  }

  /** deleteTunnel: refused while an allocated address is attached. */
  function DeleteTunnel(db: Db, user: User, t: nat): Tx {
    if !Owns(db, user, Tunnel(t)) || db.subs[Tunnel(t)].status == Closed || AnyAttached(db, t) then Refused
    else Done(db.(subs := db.subs[Tunnel(t) := db.subs[Tunnel(t)].(status := Closed)]))
  }

  /** deleteGreTunnel: detaches whatever is attached. */
  function DeleteGreTunnel(db: Db, user: User, t: nat): Tx {
    if !Owns(db, user, Tunnel(t)) || db.subs[Tunnel(t)].status == Closed then Refused
    else Done(db.(seats := Detach(db.seats, t),
                  subs := db.subs[Tunnel(t) := db.subs[Tunnel(t)].(status := Closed)]))
  }

  // ----- single addresses -----

  predicate InPool(db: Db, p: nat, a: nat) {
    p in db.pools && db.pools[p].net <= a < db.pools[p].net + db.pools[p].size
  }

  /** The upsert of a single address: columns it does not name keep their old values. */
  function ClaimIp(db: Db, user: User, p: nat, a: nat, price: nat, now: int): Db
    requires p in db.pools
  {
    var it := Ip(a);
    var s := if it in db.subs
             then db.subs[it].(owner := Some(user), status := Current, price := Some(price), next := Some(now + CYCLE))
             else Sub(Some(user), Current, Some(price), Some(now + CYCLE), None, None);
    db.(subs := db.subs[it := s],
        seats := db.seats[a := Seat(if a in db.seats then db.seats[a].pool else p, None, None)],
        pools := db.pools[p := db.pools[p].(avail := db.pools[p].avail - 1, alloc := db.pools[p].alloc + 1)])
  }

  /** buyPublicIp: only an allocated row is rejected. */
  function BuyIp(db: Db, user: User, p: nat, a: nat, price: nat, now: int): Tx {
    if !InPool(db, p, a) || !Plans.SellableAsSingle(a, db.pools[p].plans) then Refused else
    if Ip(a) in db.subs && db.subs[Ip(a)].status == Current then Refused else
    match Debit(db, user, price, Purchase(Ip(a), now))
    case Refused => Refused
    case Done(d) => Done(ClaimIp(d, user, p, a, price, now))
  }

  /** adminGrantIp: any taken row is rejected, and no money moves. */
  function GrantIp(db: Db, user: User, p: nat, a: nat, price: nat, now: int): Tx {
    if !InPool(db, p, a) then Refused else
    if Ip(a) in db.subs && db.subs[Ip(a)].status != Closed then Refused else
    Done(ClaimIp(db, user, p, a, price, now))
  }

  /** A tunnel that addresses may be attached to. */
  predicate Target(db: Db, user: User, to: Option<nat>) {
    to.Some? ==> Owns(db, user, Tunnel(to.value)) && db.subs[Tunnel(to.value)].status == Current
  }

  function Reseat(seats: map<nat, Seat>, moved: set<nat>, to: Option<nat>): map<nat, Seat> {
    map a | a in seats :: if a in moved then seats[a].(tunnel := to) else seats[a]
  }

  function MoveIp(db: Db, user: User, a: nat, to: Option<nat>): Tx {
    if a !in db.seats || !Owns(db, user, Ip(a)) || db.subs[Ip(a)].status != Current then Refused else
    if db.seats[a].block.Some? || !Target(db, user, to) then Refused else
    Done(db.(seats := Reseat(db.seats, {a}, to)))
  }

  function ReleaseIp(db: Db, user: User, a: nat): Tx {
    if a !in db.seats || !Owns(db, user, Ip(a)) || db.subs[Ip(a)].status != Current then Refused else
    if db.seats[a].block.Some? || db.seats[a].tunnel.Some? then Refused else
    Done(db.(subs := db.subs[Ip(a) := db.subs[Ip(a)].(status := Closed, owner := None, next := None)],
             pools := CountIn(db.pools, db.seats[a].pool, 1)))
  }

  // ----- blocks -----

  predicate Taken(db: Db, p: nat, a: nat) {
    a in db.seats && db.seats[a].pool == p && Ip(a) in db.subs && db.subs[Ip(a)].status != Closed
  }

  ghost predicate AllFree(db: Db, p: nat, net: nat, size: nat) {
    forall a :: net <= a < net + size ==> !Taken(db, p, a)
  }

  /** A window that findFreeBlock may return for this pool. */
  ghost predicate Offered(db: Db, p: nat, net: nat, size: nat) {
    && p in db.pools
    && AllFree(db, p, net, size)
    && exists r, q: nat :: Plans.OnSale(RangeOf(db.pools[p]), db.pools[p].plans, Plans.Blocks(size), r)
                           && Plans.Window(r, size, q) && net == r.net + Plans.Offset(size, q)
  }

  /** The upsert of one member row. */
  function MemberSub(db: Db, user: User, a: nat): Sub {
    if Ip(a) in db.subs then db.subs[Ip(a)].(owner := Some(user), status := Current, next := None)
    else Sub(Some(user), Current, None, None, None, None)
  }

  function MemberSeat(db: Db, p: nat, b: nat, a: nat): Seat {
    Seat(if a in db.seats then db.seats[a].pool else p, None, Some(b))
  }

  /** The member rows' columns, keyed like the tables. */
  function MemberSubs(db: Db, user: User, net: nat, size: nat): (m: map<Item, Sub>)
    ensures forall it :: it in m <==> it.Ip? && net <= it.addr < net + size
    ensures forall a :: net <= a < net + size ==> m[Ip(a)] == MemberSub(db, user, a)
    ensures forall it :: it in m ==> m[it].owner == Some(user) && m[it].status == Current && m[it].next.None?
  {
    map a | a in Interval(net, size) :: Ip(a) := MemberSub(db, user, a)
  }

  function MemberSeats(db: Db, p: nat, b: nat, net: nat, size: nat): (m: map<nat, Seat>)
    ensures forall a :: a in m <==> net <= a < net + size
    ensures forall a :: net <= a < net + size ==> m[a] == MemberSeat(db, p, b, a)
  {
    map a | a in Interval(net, size) :: MemberSeat(db, p, b, a)
  }

  /** The block row, its member rows and the pool counters. */
  function ClaimBlock(db: Db, user: User, b: nat, p: nat, net: nat, size: nat, price: nat, now: int): Db
    requires p in db.pools
  {
    var blk := Sub(Some(user), Current, Some(price), Some(now + CYCLE), None, None);
    db.(subs := (db.subs + MemberSubs(db, user, net, size))[Block(b) := blk],
        seats := db.seats + MemberSeats(db, p, b, net, size),
        extents := db.extents[b := Extent(p, net, size)],
        pools := db.pools[p := db.pools[p].(avail := db.pools[p].avail - size, alloc := db.pools[p].alloc + size)])
  }

  /** buyIpBlock, for the window its search returns; the block id is fresh. */
  ghost function BuyBlock(db: Db, user: User, b: nat, p: nat, net: nat, size: nat, price: nat, now: int): Tx {
    if size !in Plans.BLOCK_SIZES || Block(b) in db.subs || !Offered(db, p, net, size) then Refused else
    match Debit(db, user, price, Purchase(Block(b), now))
    case Refused => Refused
    case Done(d) => Done(ClaimBlock(d, user, b, p, net, size, price, now))
  }

  /** adminGrantBlock: an aligned block inside a pool with no taken address. */
  ghost function GrantBlock(db: Db, user: User, b: nat, p: nat, net: nat, size: nat, price: nat, now: int): Tx {
    if size !in Plans.BLOCK_SIZES || Block(b) in db.subs || Plans.BitAnd(net, size - 1) != 0 then Refused else
    if p !in db.pools || !(db.pools[p].net <= net && net + size <= db.pools[p].net + db.pools[p].size) then Refused else
    if !AllFree(db, p, net, size) then Refused else
    Done(ClaimBlock(db, user, b, p, net, size, price, now))
  }

  /** "The first tunnel" among the member rows, in whatever order they come. */
  ghost function FromTunnel(db: Db, b: nat): Option<nat> {
    if exists a :: a in Members(db, b) && db.seats[a].tunnel.Some? then
      var a :| a in Members(db, b) && db.seats[a].tunnel.Some?;
      db.seats[a].tunnel
    else None
  }

  ghost function MoveBlock(db: Db, user: User, b: nat, to: Option<nat>): Tx {
    if !Owns(db, user, Block(b)) || db.subs[Block(b)].status != Current || !Target(db, user, to) then Refused else
    if FromTunnel(db, b) == to then Done(db) else
    Done(db.(seats := Reseat(db.seats, Members(db, b), to)))
  }

  function ReleaseBlock(db: Db, user: User, b: nat): Tx {
    if !Owns(db, user, Block(b)) || db.subs[Block(b)].status != Current || b !in db.extents then Refused else
    if exists a :: a in Members(db, b) && db.seats[a].tunnel.Some? then Refused else
    Done(FreeBlock(db, b, false))
  }

  // ----- administration -----

  function AdjustCredit(db: Db, user: User, amount: int): Tx {
    if amount == 0 || user !in db.books.wallets || db.books.wallets[user].balance + amount < 0 then Refused
    else Done(db.(books := Post(db.books, user, amount, None)))
  }

  /** The wallet half of redeeming a code. */
  function RedeemCredit(db: Db, user: User, code: nat, value: nat): Tx {
    if user !in db.books.wallets || Used(db.books, Redemption(code, user)) then Refused
    else Done(db.(books := Post(db.books, user, value, Some(Redemption(code, user)))))
  }

  function OverridePrice(db: Db, it: Item, price: nat): Tx {
    if it !in db.subs || (it.Tunnel? && db.subs[it].status == Closed) then Refused else
    if it.Ip? && it.addr in db.seats && db.seats[it.addr].block.Some? then Refused else
    Done(db.(subs := db.subs[it := db.subs[it].(price := Some(price))]))
  }

  function RangeOf(p: Pool): Plans.Range {
    Plans.Range(p.net, p.size)
  }

  /** addPool; ip4ToInt yields numbers below 2^32. */
  function AddPool(db: Db, p: nat, net: nat, len: nat, mode: Plans.Mode): Tx {
    if p in db.pools || net >= Plans.TWO32 || !Plans.PoolAccepted(net, len, mode) then Refused else
    Plans.PositiveSize(len);
    var range := Plans.CidrRange(net, len);
    if exists q :: q in db.pools && Plans.Overlap(RangeOf(db.pools[q]), range) then Refused else
    Done(db.(pools := db.pools[p := Pool(net, range.size, [Plans.Plan(range, mode)], range.size, 0)]))
  }

  function AddSalePlan(db: Db, p: nat, net: nat, len: nat, mode: Plans.Mode): Tx {
    if p !in db.pools || net >= Plans.TWO32 then Refused else
    if !Plans.PlanAccepted(RangeOf(db.pools[p]), db.pools[p].plans, net, len, mode) then Refused else
    var plan := Plans.Plan(Plans.CidrRange(net, len), mode);
    Done(db.(pools := db.pools[p := db.pools[p].(plans := db.pools[p].plans + [plan])]))
  }

  function OpenWallet(db: Db, user: User): Tx {
    Done(db.(books := Open(db.books, user)))
  }
}

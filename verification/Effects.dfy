/** What each transaction does, column by column: when it goes through, which rows it changes and to what,
    and which it leaves alone. */
module Effects {
  import opened Common
  import opened Ledger
  import opened Tables
  import Plans = SalePlans

  /** Days, cycles and grace in milliseconds. */
  lemma Durations(t: int)
    ensures CYCLE == 31 * 24 * 3600 * 1000 && GRACE == 3 * 24 * 3600 * 1000
    ensures Day(t) * (24 * 3600 * 1000) <= t < (Day(t) + 1) * (24 * 3600 * 1000)
  {
  }

  // ----- frames -----

  /** One wallet moves by the amount, and one ledger row says so. */
  ghost predicate Posted(b: Books, d: Books, u: User, amount: int, key: Option<IdemKey>) {
    && u in b.wallets && d.wallets.Keys == b.wallets.Keys
    && d.wallets[u].balance == b.wallets[u].balance + amount
    && d.wallets[u].topup - b.wallets[u].topup == (if amount > 0 then amount else 0)
    && d.wallets[u].spent - b.wallets[u].spent == (if amount < 0 then -amount else 0)
    && (forall v :: v in b.wallets && v != u ==> d.wallets[v] == b.wallets[v])
    && d.rows == b.rows + [Row(u, amount, b.wallets[u].balance + amount, key)]
  }

  lemma PostIs(b: Books, u: User, amount: int, key: Option<IdemKey>)
    requires u in b.wallets
    ensures Posted(b, Post(b, u, amount, key), u, amount, key)
  {
  }

  /** The item's row becomes s; every other row is as before. */
  ghost predicate RowBecomes(db: Db, d: Db, it: Item, s: Sub) {
    && d.subs.Keys == db.subs.Keys + {it} && d.subs[it] == s
    && forall i :: i in db.subs && i != it ==> d.subs[i] == db.subs[i]
  }

  /** The pool's counters change to these, and no other pool does. */
  ghost predicate PoolCounts(db: Db, d: Db, p: nat, avail: int, alloc: int)
    requires p in db.pools
  {
    && d.pools.Keys == db.pools.Keys && d.pools[p] == db.pools[p].(avail := avail, alloc := alloc)
    && forall q :: q in db.pools && q != p ==> d.pools[q] == db.pools[q]
  }

  /** n addresses leave the pool. */
  ghost predicate PoolTakes(db: Db, d: Db, p: nat, n: nat) {
    p in db.pools && PoolCounts(db, d, p, db.pools[p].avail - n, db.pools[p].alloc + n)
  }

  /** n addresses come back; the allocated count stops at zero, and an unknown pool is ignored. */
  ghost predicate PoolGets(db: Db, d: Db, p: nat, n: nat) {
    if p in db.pools then
      var x := db.pools[p];
      PoolCounts(db, d, p, x.avail + n, if x.alloc < n then 0 else x.alloc - n)
    else d.pools == db.pools
  }

  ghost predicate Affords(db: Db, u: User, price: nat) {
    u in db.books.wallets && db.books.wallets[u].balance >= price
  }

  ghost predicate KeyFree(db: Db, key: IdemKey) {
    forall i :: 0 <= i < |db.books.rows| ==> db.books.rows[i].key != Some(key)
  }

  // ----- renewals -----

  /** An item's row as a charge finds it: owned, not deleted, and not an address inside a block. */
  ghost predicate Billable(db: Db, it: Item, u: User) {
    && it in db.subs && db.subs[it].owner == Some(u)
    && (it.Tunnel? ==> db.subs[it].status != Closed)
    && (it.Ip? ==> it.addr in db.seats && db.seats[it.addr].block.None?)
  }

  /** A charge takes the price locked in the row, whatever the catalog says, and the catalog's only when the
      row has none: it moves the wallet by exactly that price and the row by one cycle, or else suspends the
      item, which happens exactly when the balance is below the price. */
  lemma ChargeTakes(db: Db, it: Item, u: User, n: int, p: nat, now: int, live: Option<nat>)
    requires Billable(db, it, u) && u in db.books.wallets
    requires db.subs[it].next == Some(n) || (db.subs[it].next.None? && n == 0)
    requires db.subs[it].price == Some(p) || (db.subs[it].price.None? && live == Some(p))
    ensures var (d, o) := Charge(db, it, now, live);
            var s, w, key := db.subs[it], db.books.wallets[u].balance, Renewal(it, Day(n));
            && (o == SuspendedNow <==> w < p)
            && (o == Charged <==> w >= p && KeyFree(db, key))
            && (o == Charged ==>
                  && d == db.(books := d.books, subs := d.subs) && Posted(db.books, d.books, u, -(p as int), Some(key))
                  && RowBecomes(db, d, it, Sub(Some(u), Current, s.price, Some(n + CYCLE), None, None)))
            && (o == SuspendedNow ==>
                  && d == db.(subs := d.subs)
                  && RowBecomes(db, d, it, Sub(Some(u), Suspended, s.price, s.next,
                                               Some(if s.suspendedAt.Some? then s.suspendedAt.value else now),
                                               Some(if s.deleteAfter.Some? then s.deleteAfter.value else now + GRACE))))
            && (o == Skipped ==> d == db) && o != Error
  {
    if db.books.wallets[u].balance >= p { PostIs(db.books, u, -(p as int), Some(Renewal(it, Day(n)))); }
  }

  /** Everything else is left alone: items that are not billable, owners without a wallet, rows and catalogs
      without a price. */
  lemma ChargeSkips(db: Db, it: Item, now: int, live: Option<nat>)
    requires forall u :: Billable(db, it, u) ==>
               u !in db.books.wallets || (db.subs[it].price.None? && live.None?)
    ensures var (d, o) := Charge(db, it, now, live);
            d == db && (o == Skipped || o == Error) && (o == Error ==> !it.Tunnel?)
  {
    if it in db.subs && db.subs[it].owner.Some? {
      assert Billable(db, it, db.subs[it].owner.value) <==> Chargeable(db, it);
    }
  }

  // ----- cancellations -----

  ghost predicate HoldsAllocated(db: Db, t: nat) {
    exists a :: a in db.seats && db.seats[a].tunnel == Some(t) && Ip(a) in db.subs && db.subs[Ip(a)].status == Current
  }

  /** Addresses of tunnel t, when `off` says so, lose their attachment; nothing else about any seat changes. */
  ghost predicate Detached(db: Db, d: Db, t: nat, off: bool) {
    && d.seats.Keys == db.seats.Keys
    && forall a :: a in db.seats ==>
         d.seats[a] == if off && db.seats[a].tunnel == Some(t) then Seat(db.seats[a].pool, None, db.seats[a].block)
                       else db.seats[a]
  }

  /** forceCancelTunnel: the row is closed without grace dates; its addresses are detached, and stay with
      their owner, when one of them is allocated. */
  lemma CancelTunnelDoes(db: Db, t: nat)
    ensures var d := CancelTunnel(db, t); var it := Tunnel(t);
            if it in db.subs && db.subs[it].status != Closed then
              && d == db.(subs := d.subs, seats := d.seats) && Detached(db, d, t, HoldsAllocated(db, t))
              && RowBecomes(db, d, it, db.subs[it].(status := Closed, suspendedAt := None, deleteAfter := None))
            else d == db
  {
  }

  /** forceCancelPublicIp: the address is nobody's, attached to nothing, and back in its pool. */
  lemma CancelIpDoes(db: Db, a: nat)
    ensures var d := CancelIp(db, a); var it := Ip(a);
            if a in db.seats && it in db.subs then
              && d == db.(subs := d.subs, seats := d.seats, pools := d.pools)
              && RowBecomes(db, d, it, Sub(None, Closed, db.subs[it].price, None, None, None))
              && d.seats == db.seats[a := Seat(db.seats[a].pool, None, db.seats[a].block)]
              && PoolGets(db, d, db.seats[a].pool, 1)
            else d == db
  {
  }

  ghost predicate Member(db: Db, b: nat, a: nat) {
    a in db.seats && db.seats[a].block == Some(b)
  }

  /** The block's row is closed, and every member row is nobody's, in no block and attached to nothing;
      `clear` says whether grace dates go too. */
  ghost predicate BlockFreed(db: Db, d: Db, b: nat, clear: bool)
    requires Block(b) in db.subs
  {
    && d.subs.Keys == db.subs.Keys && d.seats.Keys == db.seats.Keys
    && (forall a :: a in db.seats ==>
          d.seats[a] == if Member(db, b, a) then Seat(db.seats[a].pool, None, None) else db.seats[a])
    && (forall it :: it in db.subs && it != Block(b) ==>
          var s := db.subs[it];
          d.subs[it] == if !(it.Ip? && Member(db, b, it.addr)) then s
                        else Sub(None, Closed, s.price, None, if clear then None else s.suspendedAt,
                                 if clear then None else s.deleteAfter))
    && var s := db.subs[Block(b)];
       d.subs[Block(b)] == Sub(s.owner, Closed, s.price, s.next, if clear then None else s.suspendedAt,
                               if clear then None else s.deleteAfter)
  }

  lemma FreeBlockDoes(db: Db, b: nat, clear: bool)
    requires Block(b) in db.subs && b in db.extents
    ensures var d := FreeBlock(db, b, clear);
            && d == db.(subs := d.subs, seats := d.seats, pools := d.pools) && BlockFreed(db, d, b, clear)
            && PoolGets(db, d, db.extents[b].pool, db.extents[b].size)
  {
  }

  /** forceCancelIpBlock. */
  lemma CancelBlockDoes(db: Db, b: nat)
    ensures var d := CancelBlock(db, b);
            if Block(b) in db.subs && b in db.extents then
              && d == db.(subs := d.subs, seats := d.seats, pools := d.pools) && BlockFreed(db, d, b, true)
              && PoolGets(db, d, db.extents[b].pool, db.extents[b].size)
            else d == db
  {
    if Block(b) in db.subs && b in db.extents { FreeBlockDoes(db, b, true); }
  }

  // ----- tunnels -----

  lemma DebitDoes(db: Db, u: User, price: nat, key: IdemKey)
    ensures Debit(db, u, price, key).Done? <==> Affords(db, u, price) && KeyFree(db, key)
    ensures Debit(db, u, price, key).Done? ==>
              var d := Debit(db, u, price, key).db;
              d == db.(books := d.books) && Posted(db.books, d.books, u, -(price as int), Some(key))
  {
    if u in db.books.wallets { PostIs(db.books, u, -(price as int), Some(key)); }
  }

  /** createTunnel: sold exactly for a new id, enough credit and a free key; the price paid is the price
      locked in, and the first renewal is one cycle away. */
  lemma BuyTunnelDoes(db: Db, u: User, t: nat, tier: nat, price: nat, now: int)
    ensures var r := BuyTunnel(db, u, t, tier, price, now); var it := Tunnel(t); var key := Purchase(it, now);
            && (r.Done? <==> it !in db.subs && Affords(db, u, price) && KeyFree(db, key))
            && (r.Done? ==>
                  && r.db == db.(books := r.db.books, subs := r.db.subs, tiers := db.tiers[t := tier])
                  && Posted(db.books, r.db.books, u, -(price as int), Some(key))
                  && RowBecomes(db, r.db, it, Sub(Some(u), Provisioning, Some(price), Some(now + CYCLE), None, None)))
  {
    DebitDoes(db, u, price, Purchase(Tunnel(t), now));
  }

  /** Activation turns exactly a provisioning tunnel into an active one. */
  lemma ActivateDoes(db: Db, t: nat)
    ensures var r := Activate(db, t); var it := Tunnel(t);
            && (r.Done? <==> it in db.subs && db.subs[it].status == Provisioning)
            && (r.Done? ==> r.db == db.(subs := r.db.subs) && RowBecomes(db, r.db, it, db.subs[it].(status := Current)))
  {
  }

  ghost predicate Mine(db: Db, u: User, it: Item, st: set<Status>) {
    it in db.subs && db.subs[it].owner == Some(u) && db.subs[it].status in st
  }

  /** changeTunnelTier: the new tier's full price is paid and locked in, the cycle restarts now, and any
      suspension is lifted; only a repeated key makes it do nothing. */
  lemma ChangeTierDoes(db: Db, u: User, t: nat, tier: nat, price: nat, now: int)
    ensures var r := ChangeTier(db, u, t, tier, price, now); var it := Tunnel(t);
            && (r.Done? <==> Mine(db, u, it, {Current, Suspended, Withheld}) && t in db.tiers && db.tiers[t] != tier &&
                             Affords(db, u, price))
            && (r.Done? ==>
                  var key := TierChange(t, db.tiers[t], tier, now / 1000);
                  if KeyFree(db, key) then
                    && r.db == db.(books := r.db.books, subs := r.db.subs, tiers := db.tiers[t := tier])
                    && Posted(db.books, r.db.books, u, -(price as int), Some(key))
                    && RowBecomes(db, r.db, it, Sub(Some(u), Current, Some(price), Some(now + CYCLE), None, None))
                  else r.db == db)
  {
    if u in db.books.wallets && t in db.tiers {
      PostIs(db.books, u, -(price as int), Some(TierChange(t, db.tiers[t], tier, now / 1000)));
    }
  }

  /** deleteTunnel: refused exactly for somebody else's or a deleted tunnel, or one that an allocated address
      is attached to. */
  lemma DeleteTunnelDoes(db: Db, u: User, t: nat)
    ensures var r := DeleteTunnel(db, u, t); var it := Tunnel(t);
            && (r.Done? <==> Mine(db, u, it, {Provisioning, Current, Suspended, Withheld}) && !HoldsAllocated(db, t))
            && (r.Done? ==> r.db == db.(subs := r.db.subs) && RowBecomes(db, r.db, it, db.subs[it].(status := Closed)))
  {
  }

  /** deleteGreTunnel: addresses do not stop it; they are detached. */
  lemma DeleteGreTunnelDoes(db: Db, u: User, t: nat)
    ensures var r := DeleteGreTunnel(db, u, t); var it := Tunnel(t);
            && (r.Done? <==> Mine(db, u, it, {Provisioning, Current, Suspended, Withheld}))
            && (r.Done? ==>
                  && r.db == db.(subs := r.db.subs, seats := r.db.seats) && Detached(db, r.db, t, true)
                  && RowBecomes(db, r.db, it, db.subs[it].(status := Closed)))
  {
  }

  // ----- single addresses -----

  ghost predicate Inside(db: Db, p: nat, a: nat) {
    p in db.pools && db.pools[p].net <= a < db.pools[p].net + db.pools[p].size
  }

  /** The row of an address after it was sold or granted as a single: a row that existed keeps its grace dates
      and its pool. */
  ghost predicate SingleClaimed(db: Db, d: Db, u: User, p: nat, a: nat, price: nat, now: int) {
    && RowBecomes(db, d, Ip(a), Sub(Some(u), Current, Some(price), Some(now + CYCLE),
                                    if Ip(a) in db.subs then db.subs[Ip(a)].suspendedAt else None,
                                    if Ip(a) in db.subs then db.subs[Ip(a)].deleteAfter else None))
    && d.seats == db.seats[a := Seat(if a in db.seats then db.seats[a].pool else p, None, None)]
    && PoolTakes(db, d, p, 1)
  }

  /** buyPublicIp: sold exactly when the address is inside the pool, sold as a single there, not allocated, and
      paid for. */
  lemma BuyIpDoes(db: Db, u: User, p: nat, a: nat, price: nat, now: int)
    ensures var r := BuyIp(db, u, p, a, price, now); var key := Purchase(Ip(a), now);
            && (r.Done? <==>
                  && Inside(db, p, a) && !(Ip(a) in db.subs && db.subs[Ip(a)].status == Current)
                  && (db.pools[p].plans == [] ||
                      exists i: nat :: Plans.CoversFirst(db.pools[p].plans, i, a) &&
                                       db.pools[p].plans[i].mode == Plans.Single)
                  && Affords(db, u, price) && KeyFree(db, key))
            && (r.Done? ==>
                  && r.db == db.(books := r.db.books, subs := r.db.subs, seats := r.db.seats, pools := r.db.pools)
                  && Posted(db.books, r.db.books, u, -(price as int), Some(key))
                  && SingleClaimed(db, r.db, u, p, a, price, now))
  {
    if Inside(db, p, a) { Plans.SellableIff(a, db.pools[p].plans); }
    DebitDoes(db, u, price, Purchase(Ip(a), now));
  }

  /** adminGrantIp: no money moves, and only a row that is free or absent is granted. */
  lemma GrantIpDoes(db: Db, u: User, p: nat, a: nat, price: nat, now: int)
    ensures var r := GrantIp(db, u, p, a, price, now);
            && (r.Done? <==> Inside(db, p, a) && (Ip(a) in db.subs ==> db.subs[Ip(a)].status == Closed))
            && (r.Done? ==>
                  && r.db == db.(subs := r.db.subs, seats := r.db.seats, pools := r.db.pools)
                  && SingleClaimed(db, r.db, u, p, a, price, now))
  {
  }

  /** A tunnel of the user that is active, or no tunnel at all. */
  ghost predicate Attachable(db: Db, u: User, to: Option<nat>) {
    to.Some? ==> Mine(db, u, Tunnel(to.value), {Current})
  }

  /** moveIp: the user's allocated single goes to the named tunnel and to no other. */
  lemma MoveIpDoes(db: Db, u: User, a: nat, to: Option<nat>)
    ensures var r := MoveIp(db, u, a, to);
            && (r.Done? <==> a in db.seats && db.seats[a].block.None? && Mine(db, u, Ip(a), {Current}) &&
                             Attachable(db, u, to))
            && (r.Done? ==> r.db == db.(seats := db.seats[a := Seat(db.seats[a].pool, to, None)]))
  {
    if a in db.seats { assert Reseat(db.seats, {a}, to) == db.seats[a := db.seats[a].(tunnel := to)]; }
  }

  /** releasePublicIp: only a detached single; the row becomes nobody's and its pool has one more. */
  lemma ReleaseIpDoes(db: Db, u: User, a: nat)
    ensures var r := ReleaseIp(db, u, a);
            && (r.Done? <==> a in db.seats && db.seats[a].block.None? && db.seats[a].tunnel.None? &&
                             Mine(db, u, Ip(a), {Current}))
            && (r.Done? ==>
                  && r.db == db.(subs := r.db.subs, pools := r.db.pools)
                  && RowBecomes(db, r.db, Ip(a), db.subs[Ip(a)].(owner := None, status := Closed, next := None))
                  && PoolGets(db, r.db, db.seats[a].pool, 1))
  {
  }

  // ----- blocks -----

  /** A member's billing columns: the block's owner, and no billing date of its own. */
  ghost predicate MemberBilled(subs: map<Item, Sub>, after: map<Item, Sub>, u: User, a: nat) {
    && Ip(a) in after
    && after[Ip(a)] == if Ip(a) in subs then subs[Ip(a)].(owner := Some(u), status := Current, next := None)
                       else Sub(Some(u), Current, None, None, None, None)
  }

  ghost predicate SameAt(subs: map<Item, Sub>, after: map<Item, Sub>, it: Item) {
    (it in after <==> it in subs) && (it in subs ==> after[it] == subs[it])
  }

  /** The block's row is new, every address of the window is a member, and every other row is as before. */
  ghost predicate SubsClaimed(subs: map<Item, Sub>, after: map<Item, Sub>, u: User, blk: Item, s: Sub, net: nat,
                              size: nat) {
    && blk in after && after[blk] == s
    && (forall a: nat :: net <= a < net + size ==> MemberBilled(subs, after, u, a))
    && (forall it :: it != blk && !(it.Ip? && net <= it.addr < net + size) ==> SameAt(subs, after, it))
  }

  ghost predicate SeatsClaimed(seats: map<nat, Seat>, after: map<nat, Seat>, b: nat, p: nat, net: nat, size: nat) {
    && (forall a: nat :: net <= a < net + size ==>
          a in after && after[a] == Seat(if a in seats then seats[a].pool else p, None, Some(b)))
    && (forall a: nat :: !(net <= a < net + size) ==>
          (a in after <==> a in seats) && (a in seats ==> after[a] == seats[a]))
  }

  /** The rows of a new block: itself, its extent, its members, and the pool's counters. */
  ghost predicate BlockClaimed(db: Db, d: Db, u: User, b: nat, p: nat, net: nat, size: nat, price: nat, now: int) {
    && d.extents == db.extents[b := Extent(p, net, size)]
    && SubsClaimed(db.subs, d.subs, u, Block(b), Sub(Some(u), Current, Some(price), Some(now + CYCLE), None, None), net,
                   size)
    && SeatsClaimed(db.seats, d.seats, b, p, net, size)
    && PoolTakes(db, d, p, size)
  }

  lemma OverlaySubs(subs: map<Item, Sub>, ms: map<Item, Sub>, u: User, blk: Item, s: Sub, net: nat, size: nat)
    requires !blk.Ip? && forall it :: it in ms <==> it.Ip? && net <= it.addr < net + size
    requires forall a: nat :: net <= a < net + size ==> MemberBilled(subs, ms, u, a)
    ensures SubsClaimed(subs, (subs + ms)[blk := s], u, blk, s, net, size)
  {
    var after := (subs + ms)[blk := s];
    forall a: nat | net <= a < net + size ensures MemberBilled(subs, after, u, a) {
      assert MemberBilled(subs, ms, u, a);
    }
  }

  lemma OverlaySeats(seats: map<nat, Seat>, ms: map<nat, Seat>, b: nat, p: nat, net: nat, size: nat)
    requires forall a: nat :: a in ms <==> net <= a < net + size
    requires forall a: nat :: a in ms ==> ms[a] == Seat(if a in seats then seats[a].pool else p, None, Some(b))
    ensures SeatsClaimed(seats, seats + ms, b, p, net, size)
  {
  }

  lemma MembersBilled(db: Db, u: User, net: nat, size: nat)
    ensures forall a: nat :: net <= a < net + size ==> MemberBilled(db.subs, MemberSubs(db, u, net, size), u, a)
  {
    var ms := MemberSubs(db, u, net, size);
    forall a: nat | net <= a < net + size ensures MemberBilled(db.subs, ms, u, a) {
      assert Ip(a) in ms && ms[Ip(a)] == MemberSub(db, u, a);
    }
  }

  lemma ClaimSubs(db: Db, u: User, b: nat, p: nat, net: nat, size: nat, price: nat, now: int)
    requires p in db.pools
    ensures SubsClaimed(db.subs, ClaimBlock(db, u, b, p, net, size, price, now).subs, u, Block(b),
                        Sub(Some(u), Current, Some(price), Some(now + CYCLE), None, None), net, size)
  {
    MembersBilled(db, u, net, size);
    OverlaySubs(db.subs, MemberSubs(db, u, net, size), u, Block(b),
                Sub(Some(u), Current, Some(price), Some(now + CYCLE), None, None), net, size);
  }

  lemma ClaimSeats(db: Db, u: User, b: nat, p: nat, net: nat, size: nat, price: nat, now: int)
    requires p in db.pools
    ensures SeatsClaimed(db.seats, ClaimBlock(db, u, b, p, net, size, price, now).seats, b, p, net, size)
  {
    OverlaySeats(db.seats, MemberSeats(db, p, b, net, size), b, p, net, size);
  }

  lemma ClaimRest(db: Db, u: User, b: nat, p: nat, net: nat, size: nat, price: nat, now: int)
    requires p in db.pools
    ensures var d := ClaimBlock(db, u, b, p, net, size, price, now);
            && d == db.(subs := d.subs, seats := d.seats, extents := d.extents, pools := d.pools)
            && d.extents == db.extents[b := Extent(p, net, size)] && PoolTakes(db, d, p, size)
  {
  }

  lemma ClaimBlockDoes(db: Db, u: User, b: nat, p: nat, net: nat, size: nat, price: nat, now: int, d: Db)
    requires p in db.pools && d == ClaimBlock(db, u, b, p, net, size, price, now)
    ensures d == db.(subs := d.subs, seats := d.seats, extents := d.extents, pools := d.pools)
    ensures BlockClaimed(db, d, u, b, p, net, size, price, now)
  {
    ClaimSubs(db, u, b, p, net, size, price, now);
    ClaimSeats(db, u, b, p, net, size, price, now);
    ClaimRest(db, u, b, p, net, size, price, now);
  }

  lemma ClaimedFrom(db: Db, d: Db, e: Db, u: User, b: nat, p: nat, net: nat, size: nat, price: nat, now: int)
    requires d == db.(books := d.books) && BlockClaimed(d, e, u, b, p, net, size, price, now)
    ensures BlockClaimed(db, e, u, b, p, net, size, price, now)
  {
  }

  lemma BuyBlockIs(db: Db, u: User, b: nat, p: nat, net: nat, size: nat, price: nat, now: int)
    ensures var r := BuyBlock(db, u, b, p, net, size, price, now); var paid := Debit(db, u, price, Purchase(Block(b), now));
            && (r.Done? <==> size in Plans.BLOCK_SIZES && Block(b) !in db.subs && Offered(db, p, net, size) && paid.Done?)
            && (r.Done? ==> p in paid.db.pools && r.db == ClaimBlock(paid.db, u, b, p, net, size, price, now))
  {
  }

  /** When buyIpBlock sells the window its search returned. */
  lemma BuyBlockIff(db: Db, u: User, b: nat, p: nat, net: nat, size: nat, price: nat, now: int)
    ensures BuyBlock(db, u, b, p, net, size, price, now).Done? <==>
              && size in {2, 4, 8, 16, 32, 64, 128, 256} && Block(b) !in db.subs && Offered(db, p, net, size)
              && Affords(db, u, price) && KeyFree(db, Purchase(Block(b), now))
  {
    BuyBlockIs(db, u, b, p, net, size, price, now);
    DebitDoes(db, u, price, Purchase(Block(b), now));
  }

  /** And what it writes: one debit of the price, the block's row with that price locked in, and its members. */
  lemma BuyBlockDoes(db: Db, u: User, b: nat, p: nat, net: nat, size: nat, price: nat, now: int, d: Db)
    requires BuyBlock(db, u, b, p, net, size, price, now) == Done(d)
    ensures d == db.(books := d.books, subs := d.subs, seats := d.seats, extents := d.extents, pools := d.pools)
    ensures Posted(db.books, d.books, u, -(price as int), Some(Purchase(Block(b), now)))
    ensures BlockClaimed(db, d, u, b, p, net, size, price, now)
  {
    BuyBlockIs(db, u, b, p, net, size, price, now);
    DebitDoes(db, u, price, Purchase(Block(b), now));
    var paid := Debit(db, u, price, Purchase(Block(b), now)).db;
    ClaimBlockDoes(paid, u, b, p, net, size, price, now, d);
    ClaimedFrom(db, paid, d, u, b, p, net, size, price, now);
  }

  ghost predicate WindowInside(db: Db, p: nat, net: nat, size: nat) {
    forall a: nat :: net <= a < net + size ==> Inside(db, p, a)
  }

  lemma InsideIff(db: Db, p: nat, net: nat, size: nat)
    requires size > 0
    ensures WindowInside(db, p, net, size) <==>
              p in db.pools && db.pools[p].net <= net && net + size <= db.pools[p].net + db.pools[p].size
  {
    if WindowInside(db, p, net, size) { assert Inside(db, p, net) && Inside(db, p, net + size - 1); }
  }

  lemma GrantBlockIs(db: Db, u: User, b: nat, p: nat, net: nat, size: nat, price: nat, now: int)
    ensures var r := GrantBlock(db, u, b, p, net, size, price, now);
            && (r.Done? <==>
                  && size in Plans.BLOCK_SIZES && Block(b) !in db.subs && Plans.BitAnd(net, size - 1) == 0
                  && p in db.pools && db.pools[p].net <= net && net + size <= db.pools[p].net + db.pools[p].size
                  && AllFree(db, p, net, size))
            && (r.Done? ==> r.db == ClaimBlock(db, u, b, p, net, size, price, now))
  {
  }

  /** adminGrantBlock: an aligned block of a size on sale, inside the pool, with no address in use. */
  lemma GrantBlockIff(db: Db, u: User, b: nat, p: nat, net: nat, size: nat, price: nat, now: int)
    ensures GrantBlock(db, u, b, p, net, size, price, now).Done? <==>
              && size in {2, 4, 8, 16, 32, 64, 128, 256} && Block(b) !in db.subs && net % size == 0
              && WindowInside(db, p, net, size) && AllFree(db, p, net, size)
  {
    GrantBlockIs(db, u, b, p, net, size, price, now);
    if size in Plans.BLOCK_SIZES {
      Plans.BlockMask(net, size);
      InsideIff(db, p, net, size);
    }
  }

  /** A grant writes the rows of a purchase, and no money moves. */
  lemma GrantBlockDoes(db: Db, u: User, b: nat, p: nat, net: nat, size: nat, price: nat, now: int, d: Db)
    requires GrantBlock(db, u, b, p, net, size, price, now) == Done(d)
    ensures d == db.(subs := d.subs, seats := d.seats, extents := d.extents, pools := d.pools)
    ensures BlockClaimed(db, d, u, b, p, net, size, price, now)
  {
    GrantBlockIs(db, u, b, p, net, size, price, now);
    ClaimBlockDoes(db, u, b, p, net, size, price, now, d);
  }

  /** moveIpBlock: every member goes to the named tunnel, and no other address moves. */
  lemma MoveBlockDoes(db: Db, u: User, b: nat, to: Option<nat>)
    requires forall a, c :: Member(db, b, a) && Member(db, b, c) ==> db.seats[a].tunnel == db.seats[c].tunnel
    ensures var r := MoveBlock(db, u, b, to);
            && (r.Done? <==> Mine(db, u, Block(b), {Current}) && Attachable(db, u, to))
            && (r.Done? ==>
                  && r.db == db.(seats := r.db.seats) && r.db.seats.Keys == db.seats.Keys
                  && forall a :: a in db.seats ==>
                       r.db.seats[a] == if Member(db, b, a) then Seat(db.seats[a].pool, to, Some(b)) else db.seats[a])
  {
    forall a | Member(db, b, a) ensures db.seats[a].tunnel == FromTunnel(db, b) {
      assert a in Members(db, b);
      if db.seats[a].tunnel.None? {
        forall c | c in Members(db, b) ensures db.seats[c].tunnel.None? { assert Member(db, b, c); }
      } else {
        var c :| c in Members(db, b) && db.seats[c].tunnel.Some? && FromTunnel(db, b) == db.seats[c].tunnel;
        assert Member(db, b, c);
      }
    }
  }

  /** releaseIpBlock: only while no member is attached. */
  lemma ReleaseBlockDoes(db: Db, u: User, b: nat)
    ensures var r := ReleaseBlock(db, u, b);
            && (r.Done? <==> Mine(db, u, Block(b), {Current}) && b in db.extents &&
                             forall a :: Member(db, b, a) ==> db.seats[a].tunnel.None?)
            && (r.Done? ==>
                  && r.db == db.(subs := r.db.subs, seats := r.db.seats, pools := r.db.pools)
                  && BlockFreed(db, r.db, b, false)
                  && PoolGets(db, r.db, db.extents[b].pool, db.extents[b].size))
  {
    if Block(b) in db.subs && b in db.extents { FreeBlockDoes(db, b, false); }
    assert forall a :: a in Members(db, b) <==> Member(db, b, a);
  }

  // ----- administration -----

  /** adjustCredit: any amount but zero that leaves the balance non-negative, without a key. */
  lemma AdjustCreditDoes(db: Db, u: User, amount: int)
    ensures var r := AdjustCredit(db, u, amount);
            && (r.Done? <==> amount != 0 && u in db.books.wallets && db.books.wallets[u].balance + amount >= 0)
            && (r.Done? ==> r.db == db.(books := r.db.books) && Posted(db.books, r.db.books, u, amount, None))
  {
    if u in db.books.wallets { PostIs(db.books, u, amount, None); }
  }

  lemma RedeemCreditDoes(db: Db, u: User, code: nat, value: nat)
    ensures var r := RedeemCredit(db, u, code, value); var key := Redemption(code, u);
            && (r.Done? <==> u in db.books.wallets && KeyFree(db, key))
            && (r.Done? ==> r.db == db.(books := r.db.books) && Posted(db.books, r.db.books, u, value, Some(key)))
  {
    if u in db.books.wallets { PostIs(db.books, u, value, Some(Redemption(code, u))); }
  }

  /** overridePrice changes the locked price and nothing else. */
  lemma OverridePriceDoes(db: Db, it: Item, price: nat)
    ensures var r := OverridePrice(db, it, price);
            && (r.Done? <==> it in db.subs && (it.Tunnel? ==> db.subs[it].status != Closed) &&
                             (it.Ip? && it.addr in db.seats ==> db.seats[it.addr].block.None?))
            && (r.Done? ==>
                  r.db == db.(subs := r.db.subs) && RowBecomes(db, r.db, it, db.subs[it].(price := Some(price))))
  {
  }

  ghost predicate SharesAddress(db: Db, q: nat, r: Plans.Range) {
    q in db.pools && !Plans.Apart(RangeOf(db.pools[q]), r)
  }

  /** addPool: accepted exactly for a new id, an aligned block that may be sold as asked, and no address in
      common with another pool; the pool starts with all its addresses available and one plan for all of it. */
  lemma AddPoolDoes(db: Db, p: nat, net: nat, len: nat, mode: Plans.Mode)
    requires net < Plans.TWO32 && forall q :: q in db.pools ==> db.pools[q].size > 0
    ensures var t := AddPool(db, p, net, len, mode);
            && (t.Done? <==>
                  && p !in db.pools && Plans.PoolAccepted(net, len, mode)
                  && forall q :: !SharesAddress(db, q, Plans.CidrRange(net, len)))
            && (t.Done? ==>
                  var r := Plans.CidrRange(net, len);
                  r.size > 0 &&
                  t.db == db.(pools := db.pools[p := Pool(net, r.size, [Plans.Plan(r, mode)], r.size, 0)]))
  {
    if Plans.PoolAccepted(net, len, mode) {
      Plans.PositiveSize(len);
      forall q | q in db.pools
        ensures Plans.Overlap(RangeOf(db.pools[q]), Plans.CidrRange(net, len)) <==>
                SharesAddress(db, q, Plans.CidrRange(net, len))
      {
        Plans.OverlapIff(RangeOf(db.pools[q]), Plans.CidrRange(net, len));
      }
    }
  }

  /** addSalePlan appends the plan, at the end of the order, and touches nothing else. */
  lemma AddSalePlanDoes(db: Db, p: nat, net: nat, len: nat, mode: Plans.Mode)
    requires net < Plans.TWO32
    ensures var t := AddSalePlan(db, p, net, len, mode);
            && (t.Done? <==> p in db.pools &&
                             Plans.PlanAccepted(RangeOf(db.pools[p]), db.pools[p].plans, net, len, mode))
            && (t.Done? ==>
                  && t.db == db.(pools := t.db.pools) && t.db.pools.Keys == db.pools.Keys
                  && (forall q :: q in db.pools && q != p ==> t.db.pools[q] == db.pools[q])
                  && var x := db.pools[p];
                     t.db.pools[p] == x.(plans := x.plans + [Plans.Plan(Plans.CidrRange(net, len), mode)]))
  {
  }
}

/** Who holds which address: exclusive ownership, blocks that stay whole, pool counters, and the
    CIDR lists that are pushed to the gateways. */
module Placement {
  import opened Common
  import opened Ledger
  import opened Tables
  import Plans = SalePlans

  ghost predicate InExtent(x: Extent, a: nat) {
    x.net <= a < x.net + x.size
  }

  /** A member row agrees with its block. */
  ghost predicate MemberOk(db: Db, a: nat, b: nat)
    requires a in db.seats && Ip(a) in db.subs
  {
    && b in db.extents && Block(b) in db.subs && Live(db.subs[Block(b)])
    && db.subs[Ip(a)].status == Current && db.subs[Ip(a)].owner == db.subs[Block(b)].owner
    && InExtent(db.extents[b], a) && db.seats[a].pool == db.extents[b].pool
  }

  /** An attached address is held, by the owner of the tunnel. */
  ghost predicate AttachedOk(db: Db, a: nat, t: nat)
    requires a in db.seats && Ip(a) in db.subs
  {
    Live(db.subs[Ip(a)]) && Tunnel(t) in db.subs && db.subs[Tunnel(t)].owner == db.subs[Ip(a)].owner
  }

  ghost predicate SeatOk(db: Db, a: nat)
    requires a in db.seats
  {
    && Ip(a) in db.subs && InPool(db, db.seats[a].pool, a)
    && (Live(db.subs[Ip(a)]) <==> db.subs[Ip(a)].owner.Some?)
    && (db.seats[a].block.Some? ==> MemberOk(db, a, db.seats[a].block.value))
    && (db.seats[a].tunnel.Some? ==> AttachedOk(db, a, db.seats[a].tunnel.value))
  }

  /** A live block has all its addresses as members, and they sit together. */
  ghost predicate BlockOk(db: Db, b: nat)
    requires b in db.extents
  {
    var x := db.extents[b];
    && Block(b) in db.subs && x.size in Plans.BLOCK_SIZES && x.net % x.size == 0
    && (Live(db.subs[Block(b)]) ==>
          && (forall a :: InExtent(x, a) ==> a in db.seats && db.seats[a].block == Some(b))
          && (forall a, c :: InExtent(x, a) && InExtent(x, c) ==> db.seats[a].tunnel == db.seats[c].tunnel))
  }

  ghost predicate PoolsApart(db: Db) {
    forall p, q, a :: InPool(db, p, a) && InPool(db, q, a) ==> p == q
  }

  ghost predicate KeysMatch(db: Db) {
    && (forall a :: Ip(a) in db.subs ==> a in db.seats)
    && (forall b :: Block(b) in db.subs ==> b in db.extents)
  }

  /** Exclusive, uniform ownership. */
  ghost predicate Placed(db: Db) {
    && (forall a :: a in db.seats ==> SeatOk(db, a))
    && (forall b :: b in db.extents ==> BlockOk(db, b))
    && PoolsApart(db) && KeysMatch(db)
  }

  ghost predicate PoolsValid(db: Db) {
    forall p :: p in db.pools ==>
      Plans.PoolOk(RangeOf(db.pools[p])) && Plans.PlansOk(RangeOf(db.pools[p]), db.pools[p].plans)
  }

  ghost predicate LiveBlock(db: Db, b: nat) {
    b in db.extents && Block(b) in db.subs && Live(db.subs[Block(b)])
  }

  /** Live blocks are pairwise disjoint. */
  lemma BlocksDisjoint(db: Db, b: nat, c: nat)
    requires Placed(db) && LiveBlock(db, b) && LiveBlock(db, c) && b != c
    ensures forall a :: !(InExtent(db.extents[b], a) && InExtent(db.extents[c], a))
  {
    forall a | InExtent(db.extents[b], a) ensures !InExtent(db.extents[c], a) {
      assert BlockOk(db, b) && BlockOk(db, c);
    }
  }

  /** The members of a live block are exactly the addresses of its CIDR. */
  lemma MembersAre(db: Db, b: nat)
    requires Placed(db) && LiveBlock(db, b)
    ensures Members(db, b) == Interval(db.extents[b].net, db.extents[b].size)
    ensures forall a :: a in Members(db, b) <==> InExtent(db.extents[b], a)
  {
    assert BlockOk(db, b);
    forall a ensures a in Members(db, b) <==> InExtent(db.extents[b], a) {
      if a in Members(db, b) { assert SeatOk(db, a); }
    }
  }

  /** The members of a live block share one tunnel. */
  lemma MembersTogether(db: Db, b: nat, a: nat, c: nat)
    requires Placed(db) && LiveBlock(db, b) && a in Members(db, b) && c in Members(db, b)
    ensures db.seats[a].tunnel == db.seats[c].tunnel
  {
    assert BlockOk(db, b) && SeatOk(db, a) && SeatOk(db, c);
  }

  /** moveIpBlock's "first tunnel" is well defined: it is the tunnel of every member. */
  lemma FirstTunnelWellDefined(db: Db, b: nat, a: nat)
    requires Placed(db) && LiveBlock(db, b) && a in Members(db, b)
    ensures FromTunnel(db, b) == db.seats[a].tunnel
  {
    forall c | c in Members(db, b) ensures db.seats[a].tunnel == db.seats[c].tunnel {
      MembersTogether(db, b, a, c);
    }
  }

  // ----- what each kind of step keeps -----

  lemma PlacedSame(db: Db, e: Db)
    requires Placed(db)
    requires e.subs == db.subs && e.seats == db.seats && e.extents == db.extents && e.pools.Keys == db.pools.Keys
    requires forall p :: p in db.pools ==> e.pools[p].net == db.pools[p].net && e.pools[p].size == db.pools[p].size
    ensures Placed(e)
  {
    forall p, a ensures InPool(e, p, a) <==> InPool(db, p, a) {}
    forall a | a in e.seats ensures SeatOk(e, a) { assert SeatOk(db, a); }
    forall b | b in e.extents ensures BlockOk(e, b) { assert BlockOk(db, b); }
  }

  /** Billing columns other than the owner may change as long as nothing is freed or taken. */
  lemma BillingKeeps(db: Db, it: Item, s: Sub)
    requires Placed(db)
    requires it !in db.subs ==> it.Tunnel?
    requires it in db.subs ==> s.owner == db.subs[it].owner
    requires it in db.subs && !it.Tunnel? ==> Live(s) == Live(db.subs[it])
    requires it.Ip? && it.addr in db.seats && db.seats[it.addr].block.Some? ==> s.status == db.subs[it].status
    ensures Placed(db.(subs := db.subs[it := s]))
  {
    var e := db.(subs := db.subs[it := s]);
    forall p, a ensures InPool(e, p, a) <==> InPool(db, p, a) {}
    forall a | a in e.seats ensures SeatOk(e, a) { assert SeatOk(db, a); }
    forall b | b in e.extents ensures BlockOk(e, b) { assert BlockOk(db, b); }
  }

  ghost predicate SameBlock(db: Db, a: nat, c: nat)
    requires a in db.seats && c in db.seats
  {
    db.seats[a].block.Some? && db.seats[a].block == db.seats[c].block
  }

  /** A set of seats that contains a block whole or not at all. */
  ghost predicate Whole(db: Db, moved: set<nat>) {
    forall a, c :: a in db.seats && c in db.seats && SameBlock(db, a, c) && a in moved ==> c in moved
  }

  /** A block that moves, moves as a whole. */
  lemma ReseatBlock(db: Db, e: Db, moved: set<nat>, to: Option<nat>, b: nat)
    requires Placed(db) && Whole(db, moved) && b in db.extents
    requires e.subs == db.subs && e.extents == db.extents && e.seats == Reseat(db.seats, moved, to)
    ensures BlockOk(e, b)
  {
    assert BlockOk(db, b);
    var x := db.extents[b];
    if Live(db.subs[Block(b)]) {
      forall a, c | InExtent(x, a) && InExtent(x, c) ensures e.seats[a].tunnel == e.seats[c].tunnel {
        assert SameBlock(db, a, c) && SameBlock(db, c, a);
      }
    }
  }

  lemma ReseatKeeps(db: Db, moved: set<nat>, to: Option<nat>)
    requires Placed(db) && Whole(db, moved)
    requires to.Some? ==> forall a :: a in moved && a in db.seats && Ip(a) in db.subs ==> AttachedOk(db, a, to.value)
    ensures Placed(db.(seats := Reseat(db.seats, moved, to)))
  {
    var e := db.(seats := Reseat(db.seats, moved, to));
    forall p, a ensures InPool(e, p, a) <==> InPool(db, p, a) {}
    forall a | a in e.seats ensures SeatOk(e, a) { assert SeatOk(db, a); }
    forall b | b in e.extents ensures BlockOk(e, b) { ReseatBlock(db, e, moved, to, b); }
  }

  lemma DetachIsReseat(db: Db, t: nat)
    requires Placed(db)
    ensures var moved := set a | a in db.seats && db.seats[a].tunnel == Some(t);
            Whole(db, moved) && Detach(db.seats, t) == Reseat(db.seats, moved, None)
  {
    var moved := set a | a in db.seats && db.seats[a].tunnel == Some(t);
    forall a, c | a in db.seats && c in db.seats && SameBlock(db, a, c) && a in moved ensures c in moved
    {
      assert SeatOk(db, a) && SeatOk(db, c);
      assert BlockOk(db, db.seats[a].block.value);
    }
  }

  // ----- taking and giving back -----

  lemma ClaimIpKeeps(db: Db, user: User, p: nat, a: nat, price: nat, now: int)
    requires Placed(db) && InPool(db, p, a)
    requires Ip(a) in db.subs ==> db.subs[Ip(a)].status != Current
    ensures Placed(ClaimIp(db, user, p, a, price, now))
  {
    var e := ClaimIp(db, user, p, a, price, now);
    forall q, c ensures InPool(e, q, c) <==> InPool(db, q, c) {}
    if a in db.seats { assert SeatOk(db, a); }
    forall c | c in e.seats ensures SeatOk(e, c) {
      if c != a { assert SeatOk(db, c); }
    }
    forall b | b in e.extents ensures BlockOk(e, b) { assert BlockOk(db, b); }
  }

  lemma FreeIpKeeps(db: Db, a: nat, s: Sub, pools: map<nat, Pool>)
    requires Placed(db) && a in db.seats && db.seats[a].block.None?
    requires s.owner.None? && !Live(s) && pools == CountIn(db.pools, db.seats[a].pool, 1)
    ensures Placed(db.(subs := db.subs[Ip(a) := s], seats := db.seats[a := db.seats[a].(tunnel := None)],
                       pools := pools))
  {
    var e := db.(subs := db.subs[Ip(a) := s], seats := db.seats[a := db.seats[a].(tunnel := None)], pools := pools);
    forall q, c ensures InPool(e, q, c) <==> InPool(db, q, c) {}
    forall c | c in e.seats ensures SeatOk(e, c) { assert SeatOk(db, c); }
    forall b | b in e.extents ensures BlockOk(e, b) { assert BlockOk(db, b); }
  }

  /** A free window: none of its rows is anybody's. */
  lemma FreeWindow(db: Db, p: nat, net: nat, size: nat, a: nat)
    requires Placed(db) && p in db.pools && AllFree(db, p, net, size) && net <= a < net + size && InPool(db, p, a)
    ensures Ip(a) in db.subs ==>
              a in db.seats && db.seats[a].pool == p && db.seats[a].block.None? && db.subs[Ip(a)].status == Closed
  {
    if Ip(a) in db.subs {
      assert SeatOk(db, a);
      assert !Taken(db, p, a);
    }
  }

  ghost predicate BlockFits(db: Db, p: nat, net: nat, size: nat) {
    p in db.pools && size in Plans.BLOCK_SIZES && net % size == 0 &&
    (forall a :: net <= a < net + size ==> InPool(db, p, a))
  }

  ghost predicate SamePools(db: Db, e: Db) {
    forall q, x :: InPool(e, q, x) <==> InPool(db, q, x)
  }

  ghost predicate ClaimedSeats(db: Db, seats: map<nat, Seat>, b: nat, p: nat, net: nat, size: nat) {
    && (forall a :: net <= a < net + size ==> a in seats && seats[a] == MemberSeat(db, p, b, a))
    && (forall a: nat :: !(net <= a < net + size) ==>
        (a in seats <==> a in db.seats) && (a in db.seats ==> seats[a] == db.seats[a]))
  }

  ghost predicate ClaimedSubs(db: Db, subs: map<Item, Sub>, user: User, b: nat, net: nat, size: nat) {
    && (forall a :: net <= a < net + size ==>
        Ip(a) in subs && subs[Ip(a)].owner == Some(user) && subs[Ip(a)].status == Current)
    && (forall it :: it != Block(b) && !(it.Ip? && net <= it.addr < net + size) ==>
          (it in subs <==> it in db.subs) && (it in db.subs ==> subs[it] == db.subs[it]))
    && Block(b) in subs && Live(subs[Block(b)]) && subs[Block(b)].owner == Some(user)
  }

  /** The effect of claiming a block, row by row. */
  ghost predicate Claimed(db: Db, e: Db, user: User, b: nat, p: nat, net: nat, size: nat) {
    && SamePools(db, e) && e.extents == db.extents[b := Extent(p, net, size)]
    && ClaimedSeats(db, e.seats, b, p, net, size) && ClaimedSubs(db, e.subs, user, b, net, size)
  }

  ghost predicate PoolsTake(db: Db, e: Db, p: nat, n: nat) {
    p in db.pools && e.pools == db.pools[p := db.pools[p].(avail := db.pools[p].avail - n,
                                                           alloc := db.pools[p].alloc + n)]
  }

  lemma OverlaySubs(db: Db, ms: map<Item, Sub>, user: User, b: nat, net: nat, size: nat, blk: Sub)
    requires blk.owner == Some(user) && blk.status == Current
    requires forall it :: it in ms <==> it.Ip? && net <= it.addr < net + size
    requires forall it :: it in ms ==> ms[it].owner == Some(user) && ms[it].status == Current
    ensures ClaimedSubs(db, (db.subs + ms)[Block(b) := blk], user, b, net, size)
  {
  }

  lemma OverlaySeats(db: Db, ms: map<nat, Seat>, b: nat, p: nat, net: nat, size: nat)
    requires forall a :: a in ms <==> net <= a < net + size
    requires forall a :: net <= a < net + size ==> ms[a] == MemberSeat(db, p, b, a)
    ensures ClaimedSeats(db, db.seats + ms, b, p, net, size)
  {
  }

  lemma TakeSamePools(db: Db, e: Db, p: nat, n: nat)
    requires PoolsTake(db, e, p, n)
    ensures SamePools(db, e)
  {
  }

  lemma ClaimBlockIs(db: Db, user: User, b: nat, p: nat, net: nat, size: nat, price: nat, now: int)
    requires p in db.pools
    ensures Claimed(db, ClaimBlock(db, user, b, p, net, size, price, now), user, b, p, net, size)
    ensures PoolsTake(db, ClaimBlock(db, user, b, p, net, size, price, now), p, size)
  {
    var ms, ss := MemberSubs(db, user, net, size), MemberSeats(db, p, b, net, size);
    OverlaySubs(db, ms, user, b, net, size, Sub(Some(user), Current, Some(price), Some(now + CYCLE), None, None));
    OverlaySeats(db, ss, b, p, net, size);
    TakeSamePools(db, ClaimBlock(db, user, b, p, net, size, price, now), p, size);
  }

  lemma ClaimedSeat(db: Db, e: Db, user: User, b: nat, p: nat, net: nat, size: nat, c: nat)
    requires Placed(db) && BlockFits(db, p, net, size) && AllFree(db, p, net, size)
    requires Block(b) !in db.subs && b !in db.extents && Claimed(db, e, user, b, p, net, size) && c in e.seats
    ensures SeatOk(e, c)
  {
    if net <= c < net + size {
      FreeWindow(db, p, net, size, c);
      if c in db.seats { assert SeatOk(db, c); }
      assert MemberOk(e, c, b);
    } else {
      assert SeatOk(db, c);
    }
  }

  lemma ClaimedBlocks(db: Db, e: Db, user: User, b: nat, p: nat, net: nat, size: nat, d: nat)
    requires Placed(db) && BlockFits(db, p, net, size) && AllFree(db, p, net, size)
    requires Block(b) !in db.subs && b !in db.extents && Claimed(db, e, user, b, p, net, size) && d in e.extents
    ensures BlockOk(e, d)
  {
    if d != b {
      assert BlockOk(db, d);
      if Live(db.subs[Block(d)]) {
        forall a: nat | InExtent(db.extents[d], a) ensures a in e.seats && e.seats[a] == db.seats[a] {
          assert SeatOk(db, a);
          if net <= a < net + size { FreeWindow(db, p, net, size, a); }
        }
      }
    }
  }

  lemma ClaimedKeeps(db: Db, e: Db, user: User, b: nat, p: nat, net: nat, size: nat)
    requires Placed(db) && BlockFits(db, p, net, size) && AllFree(db, p, net, size)
    requires Block(b) !in db.subs && b !in db.extents && Claimed(db, e, user, b, p, net, size)
    ensures Placed(e)
  {
    forall c | c in e.seats ensures SeatOk(e, c) { ClaimedSeat(db, e, user, b, p, net, size, c); }
    forall d | d in e.extents ensures BlockOk(e, d) { ClaimedBlocks(db, e, user, b, p, net, size, d); }
    assert KeysMatch(e) by { assert KeysMatch(db); }
    assert PoolsApart(e) by { assert PoolsApart(db) && SamePools(db, e); }
  }

  /** The effect of freeing a block, row by row. */
  ghost predicate Freed(db: Db, e: Db, b: nat) {
    && (forall q, x :: InPool(e, q, x) <==> InPool(db, q, x))
    && e.seats.Keys == db.seats.Keys && e.subs.Keys == db.subs.Keys && e.extents == db.extents
    && (forall a :: a in db.seats && db.seats[a].block == Some(b) ==> e.seats[a] == Seat(db.seats[a].pool, None, None))
    && (forall a :: a in db.seats && db.seats[a].block != Some(b) ==> e.seats[a] == db.seats[a])
    && (forall a :: a in db.seats && db.seats[a].block == Some(b) && Ip(a) in db.subs ==>
          e.subs[Ip(a)].owner.None? && e.subs[Ip(a)].status == Closed)
    && (forall a :: a in db.seats && db.seats[a].block != Some(b) && Ip(a) in db.subs ==>
        e.subs[Ip(a)] == db.subs[Ip(a)])
    && (forall t :: Tunnel(t) in db.subs ==> e.subs[Tunnel(t)] == db.subs[Tunnel(t)])
    && (forall d :: d != b && Block(d) in db.subs ==> e.subs[Block(d)] == db.subs[Block(d)])
    && Block(b) in e.subs && !Live(e.subs[Block(b)])
  }

  lemma FreeBlockIs(db: Db, b: nat, clear: bool)
    requires Block(b) in db.subs && b in db.extents
    ensures Freed(db, FreeBlock(db, b, clear), b)
  {
  }

  lemma FreedSeat(db: Db, e: Db, b: nat, c: nat)
    requires Placed(db) && LiveBlock(db, b) && Freed(db, e, b) && c in db.seats
    ensures SeatOk(e, c)
  {
    assert SeatOk(db, c);
  }

  lemma FreeBlockKeeps(db: Db, b: nat, clear: bool)
    requires Placed(db) && LiveBlock(db, b)
    ensures Placed(FreeBlock(db, b, clear))
  {
    var e := FreeBlock(db, b, clear);
    FreeBlockIs(db, b, clear);
    forall c | c in e.seats ensures SeatOk(e, c) { FreedSeat(db, e, b, c); }
    forall d | d in e.extents ensures BlockOk(e, d) { assert BlockOk(db, d); }
    assert KeysMatch(e) by { assert KeysMatch(db); }
    assert PoolsApart(e) by { assert PoolsApart(db); }
  }

  // ----- pool counters -----

  ghost function HeldIn(db: Db, p: nat): set<nat> {
    set a | a in db.seats && db.seats[a].pool == p && Ip(a) in db.subs && Live(db.subs[Ip(a)])
  }

  /** available_count + allocated_count is the pool's size, and allocated_count is the number of its
      allocated or suspended addresses. */
  ghost predicate CountOk(db: Db, p: nat)
    requires p in db.pools
  {
    db.pools[p].avail + db.pools[p].alloc == db.pools[p].size && db.pools[p].alloc == |HeldIn(db, p)|
  }

  ghost predicate Counted(db: Db) {
    forall p :: p in db.pools ==> CountOk(db, p)
  }

  /** Steps that neither take nor free an address keep the counters right. */
  lemma CountedSame(db: Db, e: Db)
    requires Counted(db) && e.pools.Keys == db.pools.Keys
    requires forall p :: p in db.pools ==>
               e.pools[p].size == db.pools[p].size && e.pools[p].avail == db.pools[p].avail &&
               e.pools[p].alloc == db.pools[p].alloc
    requires e.seats.Keys == db.seats.Keys
    requires forall a :: a in db.seats ==> e.seats[a].pool == db.seats[a].pool
    requires forall a :: a in db.seats ==>
               (Ip(a) in e.subs && Live(e.subs[Ip(a)]) <==> Ip(a) in db.subs && Live(db.subs[Ip(a)]))
    ensures Counted(e)
  {
    forall p | p in e.pools ensures CountOk(e, p) {
      assert CountOk(db, p);
      assert HeldIn(e, p) == HeldIn(db, p);
    }
  }

  /** The addresses ms join the held set of pool p, and nothing else changes hands. */
  ghost predicate Takes(db: Db, e: Db, p: nat, ms: set<nat>) {
    HeldIn(e, p) == HeldIn(db, p) + ms && HeldIn(db, p) !! ms && forall q :: q != p ==> HeldIn(e, q) == HeldIn(db, q)
  }

  lemma CountedTake(db: Db, e: Db, p: nat, ms: set<nat>)
    requires Counted(db) && PoolsTake(db, e, p, |ms|) && Takes(db, e, p, ms)
    ensures Counted(e)
  {
    forall q | q in e.pools ensures CountOk(e, q) { assert CountOk(db, q); }
  }

  /** n addresses leave it; the clamp at zero never acts. */
  lemma CountedGive(db: Db, e: Db, p: nat, ms: set<nat>)
    requires Counted(db) && p in db.pools
    requires e.pools == CountIn(db.pools, p, |ms|)
    requires ms <= HeldIn(db, p) && HeldIn(e, p) == HeldIn(db, p) - ms
    requires forall q :: q != p ==> HeldIn(e, q) == HeldIn(db, q)
    ensures db.pools[p].alloc - |ms| >= 0
    ensures Counted(e)
  {
    assert CountOk(db, p);
    Subset(ms, HeldIn(db, p));
    assert |HeldIn(db, p) - ms| == |HeldIn(db, p)| - |ms|;
    forall q | q in e.pools ensures CountOk(e, q) { assert CountOk(db, q); }
  }

  lemma Subset(small: set<nat>, big: set<nat>)
    requires small <= big
    ensures |small| <= |big|
  {
    assert big == small + (big - small);
  }

  /** What buying or granting a single address does to the held sets. */
  lemma ClaimIpHolds(db: Db, user: User, p: nat, a: nat, price: nat, now: int, q: nat)
    requires Placed(db) && InPool(db, p, a)
    ensures HeldIn(ClaimIp(db, user, p, a, price, now), q) == if q == p then HeldIn(db, q) + {a} else HeldIn(db, q)
  {
    var e := ClaimIp(db, user, p, a, price, now);
    if a in db.seats { assert SeatOk(db, a); }
    assert e.seats[a].pool == p;
    forall c ensures c in HeldIn(e, q) <==> c in (if q == p then HeldIn(db, q) + {a} else HeldIn(db, q)) {
    }
  }

  lemma ClaimIpPools(db: Db, user: User, p: nat, a: nat, price: nat, now: int)
    requires p in db.pools
    ensures PoolsTake(db, ClaimIp(db, user, p, a, price, now), p, 1)
  {
  }

  lemma TakeTwice(db: Db, e: Db, p: nat)
    requires Counted(db) && PoolsTake(db, e, p, 1) && HeldIn(e, p) == HeldIn(db, p)
    ensures !Counted(e)
  {
    assert CountOk(db, p) && !CountOk(e, p);
  }

  /** Exactly when a single claim keeps the counters right: the row was not held before.
      buyPublicIp lets a suspended row through, and then the counters drift. */
  lemma ClaimIpCountedIff(db: Db, user: User, p: nat, a: nat, price: nat, now: int)
    requires Placed(db) && Counted(db) && InPool(db, p, a)
    ensures Counted(ClaimIp(db, user, p, a, price, now)) <==> !(Ip(a) in db.subs && Live(db.subs[Ip(a)]))
  {
    var e := ClaimIp(db, user, p, a, price, now);
    ClaimIpPools(db, user, p, a, price, now);
    ClaimIpHolds(db, user, p, a, price, now, p);
    if Ip(a) in db.subs && Live(db.subs[Ip(a)]) {
      assert a in HeldIn(db, p) by { assert SeatOk(db, a); }
      assert HeldIn(db, p) + {a} == HeldIn(db, p);
      TakeTwice(db, e, p);
    } else {
      assert a !in HeldIn(db, p);
      forall q | q != p ensures HeldIn(e, q) == HeldIn(db, q) { ClaimIpHolds(db, user, p, a, price, now, q); }
      CountedTake(db, e, p, {a});
    }
  }

  lemma FreeIpCounted(db: Db, a: nat, e: Db)
    requires Placed(db) && Counted(db) && a in db.seats && Live(db.subs[Ip(a)])
    requires Ip(a) in e.subs && !Live(e.subs[Ip(a)]) && e.subs == db.subs[Ip(a) := e.subs[Ip(a)]]
    requires e.seats.Keys == db.seats.Keys && forall c :: c in db.seats ==> e.seats[c].pool == db.seats[c].pool
    requires e.pools == CountIn(db.pools, db.seats[a].pool, 1)
    ensures Counted(e)
  {
    assert SeatOk(db, a);
    var p := db.seats[a].pool;
    assert HeldIn(e, p) == HeldIn(db, p) - {a};
    assert forall q :: q != p ==> HeldIn(e, q) == HeldIn(db, q);
    CountedGive(db, e, p, {a});
  }

  lemma ClaimedHolds(db: Db, e: Db, user: User, b: nat, p: nat, net: nat, size: nat, q: nat, c: nat)
    requires Placed(db) && BlockFits(db, p, net, size) && AllFree(db, p, net, size)
    requires Claimed(db, e, user, b, p, net, size)
    ensures net <= c < net + size ==> c !in HeldIn(db, q)
    ensures c in HeldIn(e, q) <==> c in HeldIn(db, q) || (q == p && net <= c < net + size)
  {
    if net <= c < net + size {
      FreeWindow(db, p, net, size, c);
      if c in db.seats { assert SeatOk(db, c); }
    }
  }

  lemma ClaimedHoldsSet(db: Db, e: Db, user: User, b: nat, p: nat, net: nat, size: nat, q: nat, ms: set<nat>)
    requires Placed(db) && BlockFits(db, p, net, size) && AllFree(db, p, net, size)
    requires Claimed(db, e, user, b, p, net, size) && forall c :: c in ms <==> net <= c < net + size
    ensures HeldIn(db, q) !! ms && HeldIn(e, q) == HeldIn(db, q) + if q == p then ms else {}
  {
    var now, then_ := HeldIn(e, q), HeldIn(db, q);
    forall c: nat ensures c in ms ==> c !in then_
             ensures c in now <==> c in then_ || (q == p && c in ms)
    {
      ClaimedHolds(db, e, user, b, p, net, size, q, c);
    }
  }

  lemma ClaimedTakes(db: Db, e: Db, user: User, b: nat, p: nat, net: nat, size: nat, ms: set<nat>)
    requires Placed(db) && BlockFits(db, p, net, size) && AllFree(db, p, net, size)
    requires Claimed(db, e, user, b, p, net, size) && forall c :: c in ms <==> net <= c < net + size
    ensures Takes(db, e, p, ms)
  {
    ClaimedHoldsSet(db, e, user, b, p, net, size, p, ms);
    forall q | q != p ensures HeldIn(e, q) == HeldIn(db, q) {
      ClaimedHoldsSet(db, e, user, b, p, net, size, q, ms);
    }
  }

  lemma ClaimedCounted(db: Db, e: Db, user: User, b: nat, p: nat, net: nat, size: nat, ms: set<nat>)
    requires Placed(db) && Counted(db) && BlockFits(db, p, net, size) && AllFree(db, p, net, size)
    requires Claimed(db, e, user, b, p, net, size) && PoolsTake(db, e, p, size)
    requires |ms| == size && forall c :: c in ms <==> net <= c < net + size
    ensures Counted(e)
  {
    ClaimedTakes(db, e, user, b, p, net, size, ms);
    CountedTake(db, e, p, ms);
  }

  lemma Addresses(net: nat, size: nat) returns (ms: set<nat>)
    ensures |ms| == size && forall c :: c in ms <==> net <= c < net + size
  {
    ms := Interval(net, size);
  }

  lemma ClaimBlockCounted(db: Db, user: User, b: nat, p: nat, net: nat, size: nat, price: nat, now: int)
    requires Placed(db) && Counted(db) && BlockFits(db, p, net, size) && AllFree(db, p, net, size)
    ensures Counted(ClaimBlock(db, user, b, p, net, size, price, now))
  {
    var ms := Addresses(net, size);
    ClaimBlockIs(db, user, b, p, net, size, price, now);
    ClaimedCounted(db, ClaimBlock(db, user, b, p, net, size, price, now), user, b, p, net, size, ms);
  }

  lemma FreedHolds(db: Db, e: Db, b: nat, q: nat)
    requires Placed(db) && LiveBlock(db, b) && Freed(db, e, b)
    ensures HeldIn(e, q) == HeldIn(db, q) - Members(db, b)
    ensures q != db.extents[b].pool ==> HeldIn(e, q) == HeldIn(db, q)
    ensures Members(db, b) <= HeldIn(db, db.extents[b].pool)
  {
    forall a | a in Members(db, b) ensures a in HeldIn(db, db.extents[b].pool) && a !in HeldIn(e, q) {
      assert SeatOk(db, a);
    }
    forall c | c in db.seats && c !in Members(db, b) ensures c in HeldIn(e, q) <==> c in HeldIn(db, q) {
      assert SeatOk(db, c);
    }
  }

  lemma FreeBlockCounted(db: Db, b: nat, clear: bool)
    requires Placed(db) && Counted(db) && LiveBlock(db, b)
    ensures Counted(FreeBlock(db, b, clear))
  {
    var e := FreeBlock(db, b, clear);
    var p := db.extents[b].pool;
    FreeBlockIs(db, b, clear);
    MembersAre(db, b);
    forall q ensures HeldIn(e, q) == HeldIn(db, q) - Members(db, b) && (q != p ==> HeldIn(e, q) == HeldIn(db, q)) {
      FreedHolds(db, e, b, q);
    }
    FreedHolds(db, e, b, p);
    BlockHasPool(db, b);
    CountedGive(db, e, p, Members(db, b));
  }

  lemma BlockHasPool(db: Db, b: nat)
    requires Placed(db) && LiveBlock(db, b)
    ensures db.extents[b].pool in db.pools
  {
    assert BlockOk(db, b);
    assert SeatOk(db, db.extents[b].net);
  }
}

/** The control plane as it runs: the tables as fields, each transaction a method, and the billing tick
    (packages/provisioning/src: billing-scheduler.ts, ip-block.ts, public-ip.ts, provision.ts,
    change-tier.ts). */
module Service {
  import opened Common
  import opened Ledger
  import opened Tables
  import opened Placement
  import opened Runs
  import opened Scheduler
  import Plans = SalePlans

  class ControlPlane {
    var books: Books
    var subs: map<Item, Sub>
    var seats: map<nat, Seat>
    var extents: map<nat, Extent>
    var pools: map<nat, Pool>
    var tiers: map<nat, nat>

    ghost function View(): Db
      reads this
    {
      Db(books, subs, seats, extents, pools, tiers)
    }

    /** One chargeOne... transaction. */
    method ChargeOne(it: Item, now: int, live: Option<nat>) returns (o: Outcome)
      modifies this`books, this`subs
      ensures (View(), o) == Charge(old(View()), it, now, live)
    {
      if it !in subs || subs[it].owner.None? { return Skipped; }
      if it.Tunnel? && subs[it].status == Closed { return Skipped; }
      if it.Ip? && (it.addr !in seats || seats[it.addr].block.Some?) { return Skipped; }
      var s := subs[it];
      var price := if s.price.Some? then s.price else live;
      if price.None? { return if it.Tunnel? then Skipped else Error; }
      var user := s.owner.value;
      if user !in books.wallets { return Skipped; }
      if books.wallets[user].balance < price.value {
        subs := subs[it := s.(status := Suspended, suspendedAt := Coalesce(s.suspendedAt, now),
                              deleteAfter := Coalesce(s.deleteAfter, now + GRACE))];
        return SuspendedNow;
      }
      var cycle := CycleOf(s);
      var key := Renewal(it, Day(cycle));
      if Used(books, key) { return Skipped; }
      books := Post(books, user, -(price.value as int), Some(key));
      subs := subs[it := s.(next := Some(cycle + CYCLE), status := Current, suspendedAt := None, deleteAfter := None)];
      return Charged;
    }

    method ForceCancelTunnel(t: nat)
      modifies this`subs, this`seats
      ensures View() == CancelTunnel(old(View()), t)
    {
      if Tunnel(t) !in subs || subs[Tunnel(t)].status == Closed { return; }
      if exists a :: a in seats && seats[a].tunnel == Some(t) && Ip(a) in subs && subs[Ip(a)].status == Current {
        seats := Detach(seats, t);
      }
      subs := subs[Tunnel(t) := subs[Tunnel(t)].(status := Closed, suspendedAt := None, deleteAfter := None)];
    }

    method ForceCancelPublicIp(a: nat)
      modifies this`subs, this`seats, this`pools
      ensures View() == CancelIp(old(View()), a)
    {
      var it := Ip(a);
      if a !in seats || it !in subs { return; }
      pools := CountIn(pools, seats[a].pool, 1);
      seats := seats[a := seats[a].(tunnel := None)];
      subs := subs[it := subs[it].(status := Closed, owner := None, next := None, suspendedAt := None,
                                   deleteAfter := None)];
    }

    method ForceCancelIpBlock(b: nat)
      modifies this`subs, this`seats, this`pools
      ensures View() == CancelBlock(old(View()), b)
    {
      var it := Block(b);
      if it !in subs || b !in extents { return; }
      ghost var freed := FreeBlock(View(), b, true);
      var ms := set a | a in seats && seats[a].block == Some(b);
      var blk := subs[it].(status := Closed, suspendedAt := None, deleteAfter := None);
      seats := map a | a in seats :: if a in ms then seats[a].(tunnel := None, block := None) else seats[a];
      assert seats == freed.seats;
      subs := (map i | i in subs :: if i.Ip? && i.addr in ms then FreedSub(subs[i], true) else subs[i])[it := blk];
      assert subs == freed.subs;
      pools := CountIn(pools, extents[b].pool, extents[b].size);
    }

    method ForceCancel(it: Item)
      modifies this`subs, this`seats, this`pools
      ensures View() == Cancel(old(View()), it)
    {
      match it
      case Tunnel(t) => ForceCancelTunnel(t);
      case Ip(a) => ForceCancelPublicIp(a);
      case Block(b) => ForceCancelIpBlock(b);
    }

    method SelectDue(k: Kind, now: int) returns (xs: seq<Item>)
      ensures Distinct(xs) && forall it :: it in xs <==> KindOf(it) == k && Due(View(), it, now)
    {
      var db := Db(books, subs, seats, extents, pools, tiers);
      xs := Enumerate(set it | it in subs && KindOf(it) == k && Due(db, it, now));
    }

    method SelectExpired(k: Kind, now: int) returns (xs: seq<Item>)
      ensures Distinct(xs) && forall it :: it in xs <==> KindOf(it) == k && Expired(View(), it, now)
    {
      var db := Db(books, subs, seats, extents, pools, tiers);
      xs := Enumerate(set it | it in subs && KindOf(it) == k && Expired(db, it, now));
    }

    /** Phases 1 to 3: select the due items of one kind, then charge them one by one. */
    method ChargePhase(k: Kind, now: int, live: Catalog) returns (charged: nat, suspended: nat, ghost xs: seq<Item>)
      modifies this`books, this`subs
      ensures Distinct(xs) && forall it :: it in xs <==> KindOf(it) == k && Due(old(View()), it, now)
      ensures View() == Charges(old(View()), xs, now, live)
      ensures charged == Tally(old(View()), xs, now, live, k, Charged)
      ensures suspended == Tally(old(View()), xs, now, live, k, SuspendedNow)
    {
      var due := SelectDue(k, now);
      ghost var db := View();
      charged, suspended := 0, 0;
      for i := 0 to |due|
        invariant View() == Charges(db, due[..i], now, live)
        invariant charged == Tally(db, due[..i], now, live, k, Charged)
        invariant suspended == Tally(db, due[..i], now, live, k, SuspendedNow)
      {
        assert due[..i + 1][..i] == due[..i];
        var o := ChargeOne(due[i], now, live(due[i]));
        if o == Charged { charged := charged + 1; } else if o == SuspendedNow { suspended := suspended + 1; }
      }
      assert due[..|due|] == due;
      xs := due;
    }

    /** Phase 4, for one kind. */
    method CancelPhase(k: Kind, now: int) returns (cancelled: nat, ghost xs: seq<Item>)
      modifies this`subs, this`seats, this`pools
      ensures Distinct(xs) && forall it :: it in xs <==> KindOf(it) == k && Expired(old(View()), it, now)
      ensures View() == Cancels(old(View()), xs)
      ensures cancelled == |xs|
    {
      var gone := SelectExpired(k, now);
      ghost var db := View();
      cancelled := 0;
      for i := 0 to |gone|
        invariant View() == Cancels(db, gone[..i])
        invariant cancelled == i
      {
        assert gone[..i + 1][..i] == gone[..i];
        ForceCancel(gone[i]);
        cancelled := cancelled + 1;
      }
      assert gone[..|gone|] == gone;
      xs := gone;
    }

    /** Phases 1 to 3 in turn. */
    method ChargeDue(now: int, live: Catalog) returns (t: Counts, i: Counts, b: Counts, ghost xs: seq<Item>)
      modifies this`books, this`subs
      ensures SelectsDue(old(View()), xs, {Tunnels, Ips, Blocks}, now) && View() == Charges(old(View()), xs, now, live)
      ensures t == ChargeReport(old(View()), xs, now, live, Tunnels)
      ensures i == ChargeReport(old(View()), xs, now, live, Ips)
      ensures b == ChargeReport(old(View()), xs, now, live, Blocks)
    {
      ghost var db := View();
      var tc, ts, t1 := ChargePhase(Tunnels, now, live);
      var ic, si, i1 := ChargePhase(Ips, now, live);
      var bc, bs, b1 := ChargePhase(Blocks, now, live);
      ThreeDue(db, t1, i1, b1, now, live);
      xs := t1 + i1 + b1;
      t, i, b := Counts(tc, ts, 0), Counts(ic, si, 0), Counts(bc, bs, 0);
    }

    /** Phase 4 for the three kinds. */
    method CancelExpired(now: int, ghost live: Catalog) returns (t: nat, i: nat, b: nat, ghost ys: seq<Item>)
      modifies this`subs, this`seats, this`pools
      ensures SelectsExpired(old(View()), ys, {Tunnels, Ips, Blocks}, now) && View() == Cancels(old(View()), ys)
      ensures t == KindCount(ys, Tunnels) && i == KindCount(ys, Ips) && b == KindCount(ys, Blocks)
    {
      ghost var db := View();
      ghost var t2, i2, b2;
      t, t2 := CancelPhase(Tunnels, now);
      i, i2 := CancelPhase(Ips, now);
      b, b2 := CancelPhase(Blocks, now);
      ThreeExpired(db, t2, i2, b2, now, live);
      ys := t2 + i2 + b2;
    }

    /** runBillingTick at one instant. */
    method RunBillingTick(now: int, live: Catalog) returns (r: Report, ghost xs: seq<Item>, ghost ys: seq<Item>)
      modifies this`books, this`subs, this`seats, this`pools
      ensures TickOf(old(View()), View(), xs, ys, now, live)
      ensures r.tunnels == TickReport(old(View()), xs, ys, now, live, Tunnels)
      ensures r.ips == TickReport(old(View()), xs, ys, now, live, Ips)
      ensures r.blocks == TickReport(old(View()), xs, ys, now, live, Blocks)
    {
      ghost var db := View();
      var t, i, b;
      t, i, b, xs := ChargeDue(now, live);
      ghost var mid := View();
      var tx, ix, bx;
      tx, ix, bx, ys := CancelExpired(now, live);
      EveryKind(db, mid, xs, ys, now, live);
      r := Report(t.(cancelled := tx), i.(cancelled := ix), b.(cancelled := bx));
    }

    // ----- purchases -----

    /** The wallet update and ledger row of a purchase. */
    method Debits(user: User, price: nat, key: IdemKey) returns (ok: bool)
      modifies this`books
      ensures match Debit(old(View()), user, price, key)
              case Done(d) => ok && View() == d
              case Refused => !ok && View() == old(View())
    {
      if user !in books.wallets || books.wallets[user].balance < price { return false; }
      if Used(books, key) { return false; }
      books := Post(books, user, -(price as int), Some(key));
      return true;
    }

    /** createTunnel and provisionGreTunnel: money, row and tier in one transaction. */
    method CreateTunnel(user: User, t: nat, tier: nat, price: nat, now: int) returns (ok: bool)
      modifies this`books, this`subs, this`tiers
      ensures match BuyTunnel(old(View()), user, t, tier, price, now)
              case Done(d) => ok && View() == d
              case Refused => !ok && View() == old(View())
    {
      if Tunnel(t) in subs { return false; }
      ok := Debits(user, price, Purchase(Tunnel(t), now));
      if ok {
        subs := subs[Tunnel(t) := Sub(Some(user), Provisioning, Some(price), Some(now + CYCLE), None, None)];
        tiers := tiers[t := tier];
      }
    }

    /** changeTunnelTier's transaction. */
    method ChangeTunnelTier(user: User, t: nat, tier: nat, price: nat, now: int) returns (ok: bool)
      modifies this`books, this`subs, this`tiers
      ensures match ChangeTier(old(View()), user, t, tier, price, now)
              case Done(d) => ok && View() == d
              case Refused => !ok && View() == old(View())
    {
      var it := Tunnel(t);
      if it !in subs || subs[it].owner != Some(user) || t !in tiers || subs[it].status == Closed { return false; }
      if tiers[t] == tier || subs[it].status == Provisioning { return false; }
      if user !in books.wallets || books.wallets[user].balance < price { return false; }
      var key := TierChange(t, tiers[t], tier, now / 1000);
      if Used(books, key) { return true; }
      books := Post(books, user, -(price as int), Some(key));
      tiers := tiers[t := tier];
      subs := subs[it := subs[it].(price := Some(price), next := Some(now + CYCLE), status := Current,
                                   suspendedAt := None, deleteAfter := None)];
      return true;
    }

    /** buyPublicIp. */
    method BuyPublicIp(user: User, p: nat, a: nat, price: nat, now: int) returns (ok: bool)
      modifies this`books, this`subs, this`seats, this`pools
      ensures match BuyIp(old(View()), user, p, a, price, now)
              case Done(d) => ok && View() == d
              case Refused => !ok && View() == old(View())
    {
      if p !in pools || !(pools[p].net <= a < pools[p].net + pools[p].size) { return false; }
      if !Plans.SellableAsSingle(a, pools[p].plans) { return false; }
      if Ip(a) in subs && subs[Ip(a)].status == Current { return false; }
      ok := Debits(user, price, Purchase(Ip(a), now));
      if ok {
        if Ip(a) in subs {
          subs := subs[Ip(a) := subs[Ip(a)].(owner := Some(user), status := Current, price := Some(price),
                                             next := Some(now + CYCLE))];
        } else {
          subs := subs[Ip(a) := Sub(Some(user), Current, Some(price), Some(now + CYCLE), None, None)];
        }
        seats := seats[a := Seat(if a in seats then seats[a].pool else p, None, None)];
        pools := pools[p := pools[p].(avail := pools[p].avail - 1, alloc := pools[p].alloc + 1)];
      }
    }

    /** The search for a single address in one pool. */
    method SearchSingle(p: nat) returns (found: Option<nat>)
      requires PoolsValid(View()) && p in pools
      ensures found.Some? ==> SingleOffered(View(), p, found.value) && !Taken(View(), p, found.value)
      ensures found.Some? ==> FirstAddress(View(), p, found.value)
      ensures found.None? ==> forall a: nat :: SingleOffered(View(), p, a) ==> Taken(View(), p, a)
    {
      var taken: set<int> := set a | a in seats && seats[a].pool == p && Ip(a) in subs && subs[Ip(a)].status != Closed;
      ghost var db := View();
      TakenSet(db, p, taken);
      assert taken == TakenIn(db, p);
      var r := Plans.FindFreeSingleIp(RangeOf(pools[p]), pools[p].plans, taken);
      if r.None? {
        forall a: nat ensures SingleOffered(db, p, a) ==> Taken(db, p, a) { SoldOutOffersNone(db, p, taken, a); }
        return None;
      }
      FoundSingle(db, p, taken, r.value);
      return Some(r.value);
    }

    /** The loop of buyFirstAvailableSingleIp over pools. */
    method ChooseSingle() returns (found: Option<(nat, nat)>)
      requires PoolsValid(View())
      ensures found.Some? ==>
                SingleOffered(View(), found.value.0, found.value.1) && !Taken(View(), found.value.0, found.value.1)
      ensures found.Some? ==> FirstAddress(View(), found.value.0, found.value.1)
      ensures found.None? ==> forall p: nat, a: nat :: SingleOffered(View(), p, a) ==> Taken(View(), p, a)
    {
      var order := Enumerate(pools.Keys);
      for i := 0 to |order|
        invariant forall k, a: nat :: 0 <= k < i ==> (SingleOffered(View(), order[k], a) ==> Taken(View(), order[k], a))
      {
        assert order[i] in order;
        var a := SearchSingle(order[i]);
        if a.Some? { return Some((order[i], a.value)); }
      }
      NoPoolHasSingle(View(), order);
      return None;
    }

    /** buyFirstAvailableSingleIp: what it finds, buyPublicIp sells; it says that none is available only when
        every address on sale as a single is taken. */
    method BuyFirstSingle(user: User, price: nat, now: int) returns (o: Sale)
      requires Sound(View())
      modifies this`books, this`subs, this`seats, this`pools
      ensures match o
              case Sold(p, a) =>
                FirstAddress(old(View()), p, a) && !Taken(old(View()), p, a) &&
                BuyIp(old(View()), user, p, a, price, now) == Done(View())
              case NoIpAvailable =>
                View() == old(View()) && forall p: nat, a: nat :: SingleOffered(View(), p, a) ==> Taken(View(), p, a)
              case InsufficientCredit => View() == old(View()) && !CanPay(View(), user, price)
              case DuplicateKey => View() == old(View()) && exists a: nat :: Used(books, Purchase(Ip(a), now))
              case BadSize => false
    {
      var found := ChooseSingle();
      if found.None? { return NoIpAvailable; }
      var (p, a) := found.value;
      SingleIsBuyable(View(), p, a);
      var ok := BuyPublicIp(user, p, a, price, now);
      if ok { return Sold(p, a); }
      if user !in books.wallets || books.wallets[user].balance < price { return InsufficientCredit; }
      assert Used(books, Purchase(Ip(a), now));
      return DuplicateKey;
    }

    /** The upsert of one member row. */
    method UpsertMember(user: User, p: nat, b: nat, a: nat)
      modifies this`subs, this`seats
      ensures subs == old(subs)[Ip(a) := MemberSub(old(View()), user, a)]
      ensures seats == old(seats)[a := MemberSeat(old(View()), p, b, a)]
    {
      if Ip(a) in subs {
        subs := subs[Ip(a) := subs[Ip(a)].(owner := Some(user), status := Current, next := None)];
      } else {
        subs := subs[Ip(a) := Sub(Some(user), Current, None, None, None, None)];
      }
      seats := seats[a := Seat(if a in seats then seats[a].pool else p, None, Some(b))];
    }

    /** The upsert loop over the member rows of a new block. */
    method ClaimMembers(user: User, p: nat, b: nat, net: nat, size: nat)
      modifies this`subs, this`seats
      ensures SubsUpTo(old(View()), subs, user, net, size) && SeatsUpTo(old(View()), seats, p, b, net, size)
    {
      ghost var db := View();
      for i := 0 to size
        invariant SubsUpTo(db, subs, user, net, i) && SeatsUpTo(db, seats, p, b, net, i)
      {
        SubsStep(db, View(), user, net, i);
        SeatsStep(db, View(), p, b, net, i);
        UpsertMember(user, p, b, net + i);
      }
    }

    method ClaimTables(user: User, b: nat, p: nat, net: nat, size: nat, price: nat, now: int)
      returns (ghost ms: map<Item, Sub>, ghost st: map<nat, Seat>)
      requires p in pools
      modifies this`subs, this`seats, this`extents, this`pools
      ensures SubsUpTo(old(View()), ms, user, net, size) && SeatsUpTo(old(View()), st, p, b, net, size)
      ensures subs == ms[Block(b) := Sub(Some(user), Current, Some(price), Some(now + CYCLE), None, None)]
      ensures seats == st
      ensures extents == old(extents)[b := Extent(p, net, size)]
      ensures pools == old(pools)[p := old(pools)[p].(avail := old(pools)[p].avail - size,
                                                      alloc := old(pools)[p].alloc + size)]
    {
      ClaimMembers(user, p, b, net, size);
      ms, st := subs, seats;
      subs := subs[Block(b) := Sub(Some(user), Current, Some(price), Some(now + CYCLE), None, None)];
      extents := extents[b := Extent(p, net, size)];
      pools := pools[p := pools[p].(avail := pools[p].avail - size, alloc := pools[p].alloc + size)];
    }

    /** The rows of a new block: itself, its members and the pool counters. */
    method ClaimRows(user: User, b: nat, p: nat, net: nat, size: nat, price: nat, now: int)
      requires p in pools
      modifies this`subs, this`seats, this`extents, this`pools
      ensures View() == ClaimBlock(old(View()), user, b, p, net, size, price, now)
    {
      ghost var db := View();
      ghost var ms, st := ClaimTables(user, b, p, net, size, price, now);
      ClaimIs(db, ms, st, pools[p], user, b, p, net, size, price, now);
    }

    /** The search in one pool. */
    method SearchPool(p: nat, size: nat) returns (found: Option<nat>)
      requires PoolsValid(View()) && p in pools && size in Plans.BLOCK_SIZES
      ensures found.Some? ==> Offered(View(), p, found.value, size) && FirstWindow(View(), p, found.value, size)
      ensures found.None? ==> forall net: nat :: !Offered(View(), p, net, size)
    {
      var taken: set<int> := set a | a in seats && seats[a].pool == p && Ip(a) in subs && subs[Ip(a)].status != Closed;
      ghost var db := View();
      TakenSet(db, p, taken);
      assert taken == TakenIn(db, p);
      var r := Plans.FindFreeBlock(RangeOf(pools[p]), pools[p].plans, size, taken);
      if r.Some? {
        FoundOffered(db, p, size, taken, r.value.0);
        return Some(r.value.0);
      }
      forall net: nat ensures !Offered(db, p, net, size) { ExhaustedOffersNone(db, p, size, taken, net); }
      return None;
    }

    /** The loop over pools: the first one in which the search finds a window. */
    method ChooseWindow(size: nat) returns (found: Option<(nat, nat)>)
      requires PoolsValid(View()) && size in Plans.BLOCK_SIZES
      ensures found.Some? ==> Offered(View(), found.value.0, found.value.1, size)
      ensures found.Some? ==> FirstWindow(View(), found.value.0, found.value.1, size)
      ensures found.None? ==> forall p: nat, net: nat :: !Offered(View(), p, net, size)
    {
      var order := Enumerate(pools.Keys);
      for i := 0 to |order|
        invariant forall k, net: nat :: 0 <= k < i ==> !Offered(View(), order[k], net, size)
      {
        assert order[i] in order;
        var net := SearchPool(order[i], size);
        if net.Some? { return Some((order[i], net.value)); }
      }
      NoPoolOffers(View(), order, size);
      return None;
    }

    /** buyIpBlock: credit, then a window, then the rows.  It sells a window the search found, and says
        that none is available only when no pool has one. */
    method BuyIpBlock(user: User, b: nat, size: nat, price: nat, now: int) returns (o: Sale)
      requires PoolsValid(View()) && Block(b) !in subs
      modifies this`books, this`subs, this`seats, this`extents, this`pools
      ensures match o
              case Sold(p, net) =>
                FirstWindow(old(View()), p, net, size) &&
                BuyBlock(old(View()), user, b, p, net, size, price, now) == Done(View())
              case NoIpAvailable => View() == old(View()) && forall p: nat, net: nat :: !Offered(View(), p, net, size)
              case InsufficientCredit => View() == old(View()) && !CanPay(View(), user, price)
              case BadSize => View() == old(View()) && size !in Plans.BLOCK_SIZES
              case DuplicateKey => View() == old(View()) && Used(books, Purchase(Block(b), now))
    {
      if size !in Plans.BLOCK_SIZES { return BadSize; }
      if user !in books.wallets || books.wallets[user].balance < price { return InsufficientCredit; }
      var found := ChooseWindow(size);
      if found.None? { return NoIpAvailable; }
      var (p, net) := found.value;
      var paid := Debits(user, price, Purchase(Block(b), now));
      if !paid { return DuplicateKey; }
      ClaimRows(user, b, p, net, size, price, now);
      return Sold(p, net);
    }

    /** The query for taken addresses inside a block. */
    method NoneTaken(p: nat, net: nat, size: nat) returns (free: bool)
      ensures free <==> AllFree(View(), p, net, size)
    {
      var taken: set<int> := set a | a in seats && seats[a].pool == p && Ip(a) in subs && subs[Ip(a)].status != Closed;
      TakenSet(View(), p, taken);
      free := !exists a :: a in taken && net <= a < net + size;
      assert free <==> Plans.Free(net, size, taken);
    }

    /** adminGrantBlock, for the pool that contains the block: aligned, inside, and nothing in use. */
    method AdminGrantBlock(user: User, b: nat, p: nat, net: nat, size: nat, price: nat, now: int) returns (ok: bool)
      requires p in pools
      modifies this`subs, this`seats, this`extents, this`pools
      ensures match GrantBlock(old(View()), user, b, p, net, size, price, now)
              case Done(d) => ok && View() == d
              case Refused => !ok && View() == old(View())
    {
      if size !in Plans.BLOCK_SIZES || Block(b) in subs { return false; }
      if Plans.BitAnd(net, size - 1) != 0 { return false; }
      if !(pools[p].net <= net && net + size <= pools[p].net + pools[p].size) { return false; }
      var free := NoneTaken(p, net, size);
      if !free { return false; }
      ClaimRows(user, b, p, net, size, price, now);
      return true;
    }

    // ----- moves and releases -----

    method MovePublicIp(user: User, a: nat, to: Option<nat>) returns (ok: bool)
      modifies this`seats
      ensures match MoveIp(old(View()), user, a, to)
              case Done(d) => ok && View() == d
              case Refused => !ok && View() == old(View())
    {
      if a !in seats || Ip(a) !in subs { return false; }
      if subs[Ip(a)].owner != Some(user) || subs[Ip(a)].status != Current { return false; }
      if seats[a].block.Some? { return false; }
      if to.Some? {
        var t := Tunnel(to.value);
        if t !in subs || subs[t].owner != Some(user) || subs[t].status != Current { return false; }
      }
      ghost var moved := Reseat(seats, {a}, to);
      seats := seats[a := seats[a].(tunnel := to)];
      assert seats == moved;
      return true;
    }

    /** The first tunnel found among the member rows. */
    method FirstTunnel(b: nat) returns (from: Option<nat>)
      requires Placed(View()) && Block(b) in subs && Live(subs[Block(b)])
      ensures from == FromTunnel(View(), b)
    {
      var ms: set<nat> := set a | a in seats && seats[a].block == Some(b);
      var rows: seq<nat> := Enumerate(ms);
      from := None;
      ghost var db := View();
      assert forall k :: 0 <= k < |rows| ==> rows[k] in rows;
      for i := 0 to |rows|
        invariant from.None? ==> forall k :: 0 <= k < i ==> db.seats[rows[k]].tunnel.None?
        invariant from.Some? ==> exists k :: 0 <= k < i && db.seats[rows[k]].tunnel == from
      {
        if from.None? && seats[rows[i]].tunnel.Some? { from := seats[rows[i]].tunnel; }
      }
      FromIs(db, b, rows, from);
    }

    /** One UPDATE over the member rows. */
    method SetTunnel(b: nat, to: Option<nat>)
      modifies this`seats
      ensures seats == Reseat(old(seats), Members(old(View()), b), to)
    {
      var ms := set a | a in seats && seats[a].block == Some(b);
      seats := map a | a in seats :: if a in ms then seats[a].(tunnel := to) else seats[a];
    }

    /** moveIpBlock: "the first tunnel" of the member rows, in whatever order they come. */
    method MoveIpBlock(user: User, b: nat, to: Option<nat>) returns (ok: bool)
      requires Placed(View())
      modifies this`seats
      ensures match MoveBlock(old(View()), user, b, to)
              case Done(d) => ok && View() == d
              case Refused => !ok && View() == old(View())
    {
      if Block(b) !in subs || subs[Block(b)].owner != Some(user) || subs[Block(b)].status != Current { return false; }
      if to.Some? {
        var t := Tunnel(to.value);
        if t !in subs || subs[t].owner != Some(user) || subs[t].status != Current { return false; }
      }
      var from := FirstTunnel(b);
      if from == to { return true; }
      SetTunnel(b, to);
      return true;
    }

    method ReleasePublicIp(user: User, a: nat) returns (ok: bool)
      modifies this`subs, this`pools
      ensures match ReleaseIp(old(View()), user, a)
              case Done(d) => ok && View() == d
              case Refused => !ok && View() == old(View())
    {
      if a !in seats || Ip(a) !in subs { return false; }
      if subs[Ip(a)].owner != Some(user) || subs[Ip(a)].status != Current { return false; }
      if seats[a].block.Some? || seats[a].tunnel.Some? { return false; }
      subs := subs[Ip(a) := subs[Ip(a)].(status := Closed, owner := None, next := None)];
      pools := CountIn(pools, seats[a].pool, 1);
      return true;
    }
  }

  datatype Sale = Sold(p: nat, net: nat) | NoIpAvailable | InsufficientCredit | BadSize | DuplicateKey

  ghost predicate InWindow(it: Item, net: nat, i: nat) {
    it.Ip? && net <= it.addr < net + i
  }

  /** The first i members have been upserted. */
  ghost predicate SubsUpTo(db: Db, subs: map<Item, Sub>, user: User, net: nat, i: nat) {
    && (forall it :: it in subs <==> it in db.subs || InWindow(it, net, i))
    && (forall it :: it in subs ==>
          subs[it] == if InWindow(it, net, i) then MemberSub(db, user, it.addr) else db.subs[it])
  }

  ghost predicate SeatsUpTo(db: Db, seats: map<nat, Seat>, p: nat, b: nat, net: nat, i: nat) {
    && (forall a :: a in seats <==> a in db.seats || net <= a < net + i)
    && (forall a :: a in seats ==> seats[a] == if net <= a < net + i then MemberSeat(db, p, b, a) else db.seats[a])
  }

  lemma SubsStep(db: Db, cur: Db, user: User, net: nat, i: nat)
    requires SubsUpTo(db, cur.subs, user, net, i)
    ensures SubsUpTo(db, cur.subs[Ip(net + i) := MemberSub(cur, user, net + i)], user, net, i + 1)
  {
    assert forall it :: InWindow(it, net, i + 1) <==> InWindow(it, net, i) || it == Ip(net + i);
    assert MemberSub(cur, user, net + i) == MemberSub(db, user, net + i);
  }

  lemma SeatsStep(db: Db, cur: Db, p: nat, b: nat, net: nat, i: nat)
    requires SeatsUpTo(db, cur.seats, p, b, net, i)
    ensures SeatsUpTo(db, cur.seats[net + i := MemberSeat(cur, p, b, net + i)], p, b, net, i + 1)
  {
    assert MemberSeat(cur, p, b, net + i) == MemberSeat(db, p, b, net + i);
  }

  lemma MemberSubsAre(db: Db, user: User, net: nat, size: nat, it: Item)
    ensures it in MemberSubs(db, user, net, size) <==> InWindow(it, net, size)
    ensures InWindow(it, net, size) ==> MemberSubs(db, user, net, size)[it] == MemberSub(db, user, it.addr)
  {
    if it.Ip? { assert it == Ip(it.addr); }
  }

  lemma SubsAll(db: Db, subs: map<Item, Sub>, user: User, net: nat, size: nat, m: map<Item, Sub>)
    requires SubsUpTo(db, subs, user, net, size)
    requires forall it :: it in m <==> InWindow(it, net, size)
    requires forall it :: it in m ==> m[it] == MemberSub(db, user, it.addr)
    ensures subs == db.subs + m
  {
  }

  lemma SeatsAll(db: Db, seats: map<nat, Seat>, p: nat, b: nat, net: nat, size: nat)
    requires SeatsUpTo(db, seats, p, b, net, size)
    ensures seats == db.seats + MemberSeats(db, p, b, net, size)
  {
  }

  lemma SubsAreMembers(db: Db, subs: map<Item, Sub>, user: User, net: nat, size: nat)
    requires SubsUpTo(db, subs, user, net, size)
    ensures subs == db.subs + MemberSubs(db, user, net, size)
  {
    var m := MemberSubs(db, user, net, size);
    forall it ensures it in m <==> InWindow(it, net, size) { MemberSubsAre(db, user, net, size, it); }
    forall it | it in m ensures m[it] == MemberSub(db, user, it.addr) { MemberSubsAre(db, user, net, size, it); }
    SubsAll(db, subs, user, net, size, m);
  }

  lemma ClaimIs(db: Db, subs: map<Item, Sub>, seats: map<nat, Seat>, pool: Pool, user: User, b: nat, p: nat, net: nat,
                size: nat, price: nat, now: int)
    requires p in db.pools && SubsUpTo(db, subs, user, net, size) && SeatsUpTo(db, seats, p, b, net, size)
    requires pool == db.pools[p].(avail := db.pools[p].avail - size, alloc := db.pools[p].alloc + size)
    ensures ClaimBlock(db, user, b, p, net, size, price, now) ==
            db.(subs := subs[Block(b) := Sub(Some(user), Current, Some(price), Some(now + CYCLE), None, None)],
                seats := seats,
                extents := db.extents[b := Extent(p, net, size)], pools := db.pools[p := pool])
  {
    SubsAreMembers(db, subs, user, net, size);
    SeatsAll(db, seats, p, b, net, size);
  }

  ghost function TakenIn(db: Db, p: nat): set<int> {
    set a | a in db.seats && db.seats[a].pool == p && Ip(a) in db.subs && db.subs[Ip(a)].status != Closed
  }

  /** The first wholly free window of the pool, in plan order. */
  ghost predicate FirstWindow(db: Db, p: nat, net: nat, size: nat) {
    p in db.pools && Plans.FirstOnSale(RangeOf(db.pools[p]), db.pools[p].plans, size, net, TakenIn(db, p))
  }

  /** The first free single address of the pool, in plan order. */
  ghost predicate FirstAddress(db: Db, p: nat, a: nat) {
    p in db.pools && Plans.FirstSingle(RangeOf(db.pools[p]), db.pools[p].plans, a, TakenIn(db, p))
  }

  /** The query's set of taken addresses. */
  lemma TakenSet(db: Db, p: nat, taken: set<int>)
    requires taken == TakenIn(db, p)
    ensures forall a: nat :: a in taken <==> Taken(db, p, a)
    ensures forall net: nat, size: nat :: Plans.Free(net, size, taken) <==> AllFree(db, p, net, size)
  {
  }

  /** An address that the pool's plans sell as a single. */
  ghost predicate SingleOffered(db: Db, p: nat, a: nat) {
    p in db.pools && exists r :: Plans.OnSale(RangeOf(db.pools[p]), db.pools[p].plans, Plans.Single, r) && Plans.In(r, a)
  }

  lemma FoundSingle(db: Db, p: nat, taken: set<int>, a: int)
    requires PoolsValid(db) && p in db.pools && forall c: nat :: c in taken <==> Taken(db, p, c)
    requires Plans.FirstSingle(RangeOf(db.pools[p]), db.pools[p].plans, a, taken)
    ensures a >= 0 && SingleOffered(db, p, a) && !Taken(db, p, a)
  {
    var pool, plans := RangeOf(db.pools[p]), db.pools[p].plans;
    var r := pool;
    if plans != [] {
      var i: nat :| Plans.FirstOfSingles(plans, i, a, taken);
      r := plans[i].range;
    }
    SingleInPool(db, p, r, a);
    assert Plans.OnSale(pool, plans, Plans.Single, r);
  }

  lemma SoldOutOffersNone(db: Db, p: nat, taken: set<int>, a: nat)
    requires p in db.pools && forall c: nat :: c in taken <==> Taken(db, p, c)
    requires Plans.SinglesSoldOut(RangeOf(db.pools[p]), db.pools[p].plans, taken)
    ensures SingleOffered(db, p, a) ==> Taken(db, p, a)
  {
    if SingleOffered(db, p, a) {
      var r :| Plans.OnSale(RangeOf(db.pools[p]), db.pools[p].plans, Plans.Single, r) && Plans.In(r, a);
      assert Plans.AllTaken(r, taken);
    }
  }

  lemma SingleInPool(db: Db, p: nat, r: Plans.Range, a: int)
    requires PoolsValid(db) && p in db.pools && Plans.In(r, a)
    requires Plans.OnSale(RangeOf(db.pools[p]), db.pools[p].plans, Plans.Single, r)
    ensures a >= 0 && InPool(db, p, a)
  {
    var pool, plans := RangeOf(db.pools[p]), db.pools[p].plans;
    if plans != [] {
      var i: nat :| i < |plans| && plans[i].mode == Plans.Single && plans[i].range == r;
      assert Plans.PlanOk(pool, plans[i]);
    }
    assert Plans.In(pool, a);
  }

  /** A free single on offer passes every check of buyPublicIp but the wallet's. */
  lemma SingleIsBuyable(db: Db, p: nat, a: nat)
    requires Sound(db) && SingleOffered(db, p, a) && !Taken(db, p, a)
    ensures InPool(db, p, a) && Plans.SellableAsSingle(a, db.pools[p].plans)
    ensures Ip(a) in db.subs ==> db.subs[Ip(a)].status == Closed
  {
    var pool, plans := RangeOf(db.pools[p]), db.pools[p].plans;
    var r :| Plans.OnSale(pool, plans, Plans.Single, r) && Plans.In(r, a);
    SingleInPool(db, p, r, a);
    Plans.FoundIsSellable(pool, plans, r, a);
    if Ip(a) in db.subs { assert SeatOk(db, a); }
  }

  lemma NoPoolHasSingle(db: Db, order: seq<nat>)
    requires forall p :: p in db.pools ==> p in order
    requires forall k, a: nat :: 0 <= k < |order| ==> (SingleOffered(db, order[k], a) ==> Taken(db, order[k], a))
    ensures forall p: nat, a: nat :: SingleOffered(db, p, a) ==> Taken(db, p, a)
  {
    forall p: nat, a: nat | SingleOffered(db, p, a) ensures Taken(db, p, a) {
      var k :| 0 <= k < |order| && order[k] == p;
    }
  }

  lemma NoPoolOffers(db: Db, order: seq<nat>, size: nat)
    requires forall p :: p in db.pools ==> p in order
    requires forall k, net: nat :: 0 <= k < |order| ==> !Offered(db, order[k], net, size)
    ensures forall p: nat, net: nat :: !Offered(db, p, net, size)
  {
    forall p: nat, net: nat ensures !Offered(db, p, net, size) {
      if p in db.pools { var k :| 0 <= k < |order| && order[k] == p; }
    }
  }

  lemma FoundOffered(db: Db, p: nat, size: nat, taken: set<int>, start: int)
    requires PoolsValid(db) && p in db.pools && size in Plans.BLOCK_SIZES
    requires forall net: nat, size: nat :: Plans.Free(net, size, taken) <==> AllFree(db, p, net, size)
    requires Plans.FirstOnSale(RangeOf(db.pools[p]), db.pools[p].plans, size, start, taken)
    ensures start >= 0 && Offered(db, p, start, size)
  {
    var pool, plans := RangeOf(db.pools[p]), db.pools[p].plans;
    var r, q := pool, 0;
    if plans == [] {
      q :| Plans.FirstIn(pool, q, size, taken) && start == pool.net + Plans.Offset(size, q);
    } else {
      var i: nat, k: nat :| Plans.FirstOfPlans(plans, i, k, size, start, taken);
      r, q := plans[i].range, k;
    }
    assert Plans.OnSale(pool, plans, Plans.Blocks(size), r);
    Plans.WindowInside(pool, plans, size, r, q, start);
    assert Plans.Free(start, size, taken);
  }

  lemma ExhaustedOffersNone(db: Db, p: nat, size: nat, taken: set<int>, net: nat)
    requires p in db.pools
    requires forall net: nat, size: nat :: Plans.Free(net, size, taken) <==> AllFree(db, p, net, size)
    requires Plans.SoldOut(RangeOf(db.pools[p]), db.pools[p].plans, size, taken)
    ensures !Offered(db, p, net, size)
  {
    var pool, plans := RangeOf(db.pools[p]), db.pools[p].plans;
    forall r, q: nat | Plans.OnSale(pool, plans, Plans.Blocks(size), r) && Plans.Window(r, size, q) &&
                       net == r.net + Plans.Offset(size, q)
      ensures !AllFree(db, p, net, size)
    {
      assert Plans.Full(r, size, taken);
      assert !Plans.Free(r.net + Plans.Offset(size, q), size, taken);
    }
  }

  /** In a sound state every way of picking the first tunnel gives the same one. */
  lemma FromIs(db: Db, b: nat, rows: seq<nat>, from: Option<nat>)
    requires Placed(db) && Block(b) in db.subs && Live(db.subs[Block(b)])
    requires forall a :: a in rows <==> a in Members(db, b)
    requires forall a :: a in rows ==> a in db.seats
    requires from.None? ==> forall k :: 0 <= k < |rows| ==> db.seats[rows[k]].tunnel.None?
    requires from.Some? ==> exists k :: 0 <= k < |rows| && db.seats[rows[k]].tunnel == from
    ensures FromTunnel(db, b) == from
  {
    if from.Some? {
      var k :| 0 <= k < |rows| && db.seats[rows[k]].tunnel == from;
      assert rows[k] in rows;
      FirstTunnelWellDefined(db, b, rows[k]);
    }
  }
}

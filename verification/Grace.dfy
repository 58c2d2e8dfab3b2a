/** Grace: an item is cancelled only after a tick that found too little money at least three days
    earlier, with nothing paid for it since. */
module Grace {
  import opened Common
  import opened Ledger
  import opened Tables
  import opened Placement
  import opened Runs
  import opened Renewals
  import Plans = SalePlans

  /** suspended_at and delete_after are both null, or exactly three days apart. */
  ghost predicate Paired(s: Sub) {
    match (s.suspendedAt, s.deleteAfter)
    case (None, None) => true
    case (Some(x), Some(y)) => y == x + GRACE
    case _ => false
  }

  /** The columns agree with the status; an address that is back in its pool carries no old dates. */
  ghost predicate StatusOk(it: Item, s: Sub) {
    && (s.status == Suspended ==> s.suspendedAt.Some?)
    && (s.status == Current || s.status == Provisioning ==> s.suspendedAt.None?)
    && (it.Ip? && s.status == Closed ==> s.suspendedAt.None?)
  }

  ghost predicate ItemOk(db: Db, it: Item)
    requires it in db.subs
  {
    Paired(db.subs[it]) && StatusOk(it, db.subs[it])
  }

  /** The item's row, if there is one, is in order. */
  ghost predicate Kept(db: Db, it: Item) {
    it in db.subs ==> ItemOk(db, it)
  }

  /** A purchase of this very address finds no suspension date on its row. */
  ghost predicate BuysClear(db: Db, e: Event, it: Item) {
    e.DoBuyIp? && it == Ip(e.a) && it in db.subs ==> db.subs[it].suspendedAt.None?
  }

  ghost predicate BuysClearRun(db: Db, es: seq<Event>, it: Item) {
    forall i :: 0 <= i < |es| ==> BuysClear(Run(db, es[..i]), es[i], it)
  }

  /** The event pays for the item: a successful renewal, tier change or purchase. */
  ghost predicate Settles(db: Db, e: Event, it: Item) {
    match e
    case DoCharge(i, at, live) => i == it && Charge(db, i, at, live).1 == Charged
    case DoChangeTier(user, t, tier, price, at) => it == Tunnel(t) && Do(db, e).Done? && Do(db, e).db != db
    case DoBuyIp(_, _, a, _, _) => it == Ip(a) && Do(db, e).Done?
    case _ => false
  }

  /** What one step may do to the grace columns of an item. */
  ghost predicate GraceStep(db: Db, d: Db, e: Event, it: Item)
    requires it in d.subs
  {
    var s' := d.subs[it];
    || (s'.suspendedAt.None? && s'.deleteAfter.None?)
    || (it in db.subs && s'.suspendedAt == db.subs[it].suspendedAt && s'.deleteAfter == db.subs[it].deleteAfter &&
        !Settles(db, e, it))
    || (e.DoCharge? && e.it == it && it in db.subs && db.subs[it].suspendedAt.None? && s'.suspendedAt == Some(e.at) &&
        Charge(db, it, e.at, e.live).1 == SuspendedNow)
  }

  ghost predicate Fine(db: Db, d: Db, e: Event, it: Item) {
    it in d.subs ==> ItemOk(d, it) && GraceStep(db, d, e, it)
  }

  /** A row the step does not touch. */
  lemma UntouchedFine(db: Db, d: Db, e: Event, it: Item)
    requires Kept(db, it) && (it in d.subs ==> it in db.subs && d.subs[it] == db.subs[it]) && !Settles(db, e, it)
    ensures Fine(db, d, e, it)
  {
  }

  lemma ChargedFine(db: Db, e: Event)
    requires e.DoCharge? && Kept(db, e.it) && Due(db, e.it, e.at)
    ensures Fine(db, Charge(db, e.it, e.at, e.live).0, e, e.it)
  {
    var o := Charge(db, e.it, e.at, e.live).1;
    if o != Charged && o != SuspendedNow {
      UntouchedFine(db, Charge(db, e.it, e.at, e.live).0, e, e.it);
    }
  }

  lemma ChargeFine(db: Db, e: Event, it: Item)
    requires Kept(db, it) && e.DoCharge? && Due(db, e.it, e.at)
    ensures Fine(db, Charge(db, e.it, e.at, e.live).0, e, it)
  {
    if it == e.it { ChargedFine(db, e); } else { UntouchedFine(db, Charge(db, e.it, e.at, e.live).0, e, it); }
  }

  lemma CancelFine(db: Db, e: Event, it: Item)
    requires Kept(db, it) && e.DoCancel?
    ensures Fine(db, Cancel(db, e.it), e, it)
  {
    match e.it
    case Tunnel(t) => CancelTunnelFine(db, e, t, it);
    case Ip(a) => CancelIpFine(db, e, a, it);
    case Block(b) => CancelBlockFine(db, e, b, it);
  }

  lemma CancelTunnelFine(db: Db, e: Event, t: nat, it: Item)
    requires Kept(db, it) && e.DoCancel?
    ensures Fine(db, CancelTunnel(db, t), e, it)
  {
    if it != Tunnel(t) { UntouchedFine(db, CancelTunnel(db, t), e, it); }
  }

  lemma CancelIpFine(db: Db, e: Event, a: nat, it: Item)
    requires Kept(db, it) && e.DoCancel?
    ensures Fine(db, CancelIp(db, a), e, it)
  {
    if it != Ip(a) { UntouchedFine(db, CancelIp(db, a), e, it); }
  }

  lemma CancelBlockFine(db: Db, e: Event, b: nat, it: Item)
    requires Kept(db, it) && e.DoCancel?
    ensures Fine(db, CancelBlock(db, b), e, it)
  {
  }

  lemma NewTunnelFine(db: Db, e: Event)
    requires e.DoBuyTunnel? && Kept(db, Tunnel(e.t))
    ensures Fine(db, Step(db, e), e, Tunnel(e.t))
  {
  }

  lemma OldTunnelFine(db: Db, e: Event)
    requires (e.DoActivate? || e.DoDeleteTunnel? || e.DoDeleteGre?) && Kept(db, Tunnel(e.t))
    ensures Fine(db, Step(db, e), e, Tunnel(e.t))
  {
  }

  lemma TunnelFine(db: Db, e: Event, it: Item)
    requires Kept(db, it) && (e.DoBuyTunnel? || e.DoActivate? || e.DoDeleteTunnel? || e.DoDeleteGre?)
    ensures Fine(db, Step(db, e), e, it)
  {
    if it != Tunnel(e.t) {
      UntouchedFine(db, Step(db, e), e, it);
    } else if e.DoBuyTunnel? {
      NewTunnelFine(db, e);
    } else {
      OldTunnelFine(db, e);
    }
  }

  lemma TierFine(db: Db, e: Event, it: Item)
    requires Kept(db, it) && e.DoChangeTier?
    ensures Fine(db, Step(db, e), e, it)
  {
    if it != Tunnel(e.t) || Step(db, e) == db {
      UntouchedFine(db, Step(db, e), e, it);
    }
  }

  lemma PriceFine(db: Db, e: Event, it: Item)
    requires Kept(db, it) && e.DoSetPrice?
    ensures Fine(db, Step(db, e), e, it)
  {
  }

  lemma ClaimIpFine(db: Db, user: User, p: nat, a: nat, price: nat, now: int, it: Item)
    requires Kept(db, it) && p in db.pools && (it == Ip(a) && it in db.subs ==> db.subs[it].suspendedAt.None?)
    requires it in ClaimIp(db, user, p, a, price, now).subs
    ensures var s := ClaimIp(db, user, p, a, price, now).subs[it];
            (it != Ip(a) && it in db.subs && s == db.subs[it]) ||
            (it == Ip(a) && s.status == Current && s.suspendedAt.None? && s.deleteAfter.None?)
  {
  }

  lemma IpFine(db: Db, e: Event, it: Item)
    requires Kept(db, it) && BuysClear(db, e, it)
    requires e.DoBuyIp? || e.DoGrantIp? || e.DoReleaseIp? || e.DoMoveIp?
    ensures Fine(db, Step(db, e), e, it)
  {
    if Do(db, e).Done? && it in Step(db, e).subs {
      match e
      case DoBuyIp(user, p, a, price, at) =>
        ClaimIpFine(Debit(db, user, price, Purchase(Ip(a), at)).db, user, p, a, price, at, it);
      case DoGrantIp(user, p, a, price, at) => ClaimIpFine(db, user, p, a, price, at, it);
      case _ =>
    }
  }

  lemma MemberFine(db: Db, user: User, p: nat, net: nat, size: nat, a: nat)
    requires Kept(db, Ip(a)) && Placed(db) && BlockFits(db, p, net, size) && AllFree(db, p, net, size)
    requires net <= a < net + size
    ensures var s := MemberSub(db, user, a); s.suspendedAt.None? && s.deleteAfter.None? && s.status == Current
  {
    FreeWindow(db, p, net, size, a);
  }

  /** A row that a claim left alone or made new. */
  ghost predicate SameOrNew(db: Db, d: Db, it: Item) {
    it in d.subs ==>
      || (it in db.subs && d.subs[it] == db.subs[it])
      || (d.subs[it].status == Current && d.subs[it].suspendedAt.None? && d.subs[it].deleteAfter.None?)
  }

  lemma SameOrNewFine(db: Db, d: Db, e: Event, it: Item)
    requires Kept(db, it) && SameOrNew(db, d, it) && !Settles(db, e, it)
    ensures Fine(db, d, e, it)
  {
  }

  lemma OverlayOther(subs: map<Item, Sub>, ms: map<Item, Sub>, b: Item, s: Sub, it: Item)
    requires it !in ms
    ensures var d := (subs + ms)[b := s]; it in d ==> (it in subs && d[it] == subs[it]) || d[it] == s
  {
  }

  lemma ClaimBlockOther(db: Db, user: User, b: nat, p: nat, net: nat, size: nat, price: nat, now: int, it: Item)
    requires p in db.pools && (it.Ip? ==> !(net <= it.addr < net + size))
    ensures SameOrNew(db, ClaimBlock(db, user, b, p, net, size, price, now), it)
  {
    OverlayOther(db.subs, MemberSubs(db, user, net, size), Block(b),
                 Sub(Some(user), Current, Some(price), Some(now + CYCLE), None, None), it);
  }

  lemma OverlayMember(subs: map<Item, Sub>, ms: map<Item, Sub>, b: Item, s: Sub, it: Item)
    requires it in ms && it != b
    ensures (subs + ms)[b := s][it] == ms[it]
  {
  }

  lemma ClaimedMember(db: Db, user: User, b: nat, p: nat, net: nat, size: nat, price: nat, now: int, a: nat)
    requires p in db.pools && net <= a < net + size
    ensures var d := ClaimBlock(db, user, b, p, net, size, price, now);
            Ip(a) in d.subs && d.subs[Ip(a)] == MemberSub(db, user, a)
  {
    OverlayMember(db.subs, MemberSubs(db, user, net, size), Block(b),
                  Sub(Some(user), Current, Some(price), Some(now + CYCLE), None, None), Ip(a));
  }

  lemma MemberIsNew(db: Db, d: Db, user: User, p: nat, net: nat, size: nat, a: nat)
    requires Kept(db, Ip(a)) && Placed(db) && BlockFits(db, p, net, size) && AllFree(db, p, net, size)
    requires net <= a < net + size && Ip(a) in d.subs && d.subs[Ip(a)] == MemberSub(db, user, a)
    ensures SameOrNew(db, d, Ip(a))
  {
    MemberFine(db, user, p, net, size, a);
  }

  lemma ClaimBlockMember(db: Db, user: User, b: nat, p: nat, net: nat, size: nat, price: nat, now: int, a: nat)
    requires Kept(db, Ip(a)) && Placed(db) && BlockFits(db, p, net, size) && AllFree(db, p, net, size)
    requires net <= a < net + size
    ensures SameOrNew(db, ClaimBlock(db, user, b, p, net, size, price, now), Ip(a))
  {
    ClaimedMember(db, user, b, p, net, size, price, now, a);
    MemberIsNew(db, ClaimBlock(db, user, b, p, net, size, price, now), user, p, net, size, a);
  }

  /** The rows of a block that was just claimed. */
  lemma ClaimBlockFine(db: Db, user: User, b: nat, p: nat, net: nat, size: nat, price: nat, now: int, it: Item)
    requires Kept(db, it) && p in db.pools
    requires it.Ip? ==> Placed(db) && BlockFits(db, p, net, size) && AllFree(db, p, net, size)
    ensures SameOrNew(db, ClaimBlock(db, user, b, p, net, size, price, now), it)
  {
    if it.Ip? && net <= it.addr < net + size {
      ClaimBlockMember(db, user, b, p, net, size, price, now, it.addr);
    } else {
      ClaimBlockOther(db, user, b, p, net, size, price, now, it);
    }
  }

  /** What a purchase's debit leaves: the same rows, and the window still free. */
  lemma DebitedWindow(db: Db, d: Db, p: nat, net: nat, size: nat)
    requires Sound(db) && d == db.(books := d.books) && size in Plans.BLOCK_SIZES && Offered(db, p, net, size)
    ensures Placed(d) && BlockFits(d, p, net, size) && AllFree(d, p, net, size)
  {
    OfferedFits(db, p, net, size);
    BooksFree(db, d, p, net, size);
    BooksPlaced(db, d);
  }

  lemma BuyBlockRows(db: Db, user: User, b: nat, p: nat, net: nat, size: nat, price: nat, now: int, it: Item, d: Db)
    requires Kept(db, it) && (it.Ip? ==> Sound(db)) && BuyBlock(db, user, b, p, net, size, price, now) == Done(d)
    ensures SameOrNew(db, d, it)
  {
    BuyBlockIs(db, user, b, p, net, size, price, now);
    var m := Debit(db, user, price, Purchase(Block(b), now)).db;
    if it.Ip? { DebitedWindow(db, m, p, net, size); }
    ClaimBlockFine(m, user, b, p, net, size, price, now, it);
  }

  lemma GrantBlockRows(db: Db, user: User, b: nat, p: nat, net: nat, size: nat, price: nat, now: int, it: Item, d: Db)
    requires Kept(db, it) && (it.Ip? ==> Sound(db)) && GrantBlock(db, user, b, p, net, size, price, now) == Done(d)
    ensures SameOrNew(db, d, it)
  {
    GrantBlockIs(db, user, b, p, net, size, price, now);
    if it.Ip? { GrantFits(db, user, b, p, net, size, price, now); }
    ClaimBlockFine(db, user, b, p, net, size, price, now, it);
  }

  lemma NewBlockFine(db: Db, e: Event, it: Item, d: Db)
    requires Kept(db, it) && (it.Ip? ==> Sound(db)) && (e.DoBuyBlock? || e.DoGrantBlock?) && Do(db, e) == Done(d)
    ensures Fine(db, d, e, it)
  {
    if e.DoBuyBlock? {
      BuyBlockRows(db, e.user, e.b, e.p, e.net, e.size, e.price, e.at, it, d);
    } else {
      GrantBlockRows(db, e.user, e.b, e.p, e.net, e.size, e.price, e.at, it, d);
    }
    SameOrNewFine(db, d, e, it);
  }

  /** A released row: closed, with its dates as they were. */
  lemma ReleasedRow(db: Db, b: nat, it: Item)
    requires Block(b) in db.subs && b in db.extents && it in FreeBlock(db, b, false).subs
    ensures var s := FreeBlock(db, b, false).subs[it];
            && it in db.subs && s.suspendedAt == db.subs[it].suspendedAt && s.deleteAfter == db.subs[it].deleteAfter
            && (s.status == db.subs[it].status || (s.status == Closed && (it.Ip? ==> it.addr in Members(db, b))))
  {
  }

  lemma MemberUndated(db: Db, b: nat, a: nat)
    requires Placed(db) && Kept(db, Ip(a)) && a in Members(db, b)
    ensures Ip(a) in db.subs && db.subs[Ip(a)].suspendedAt.None?
  {
    assert SeatOk(db, a);
  }

  lemma ReleaseFine(db: Db, e: Event, it: Item)
    requires Kept(db, it) && (it.Ip? ==> Placed(db)) && e.DoReleaseBlock? && Do(db, e).Done?
    ensures Fine(db, FreeBlock(db, e.b, false), e, it)
  {
    if it in FreeBlock(db, e.b, false).subs {
      ReleasedRow(db, e.b, it);
      if it.Ip? && it.addr in Members(db, e.b) { MemberUndated(db, e.b, it.addr); }
    }
  }

  lemma SameFine(db: Db, e: Event, it: Item)
    requires Kept(db, it) && Step(db, e).subs == db.subs && !Settles(db, e, it)
    ensures Fine(db, Step(db, e), e, it)
  {
  }

  lemma BlockFine(db: Db, e: Event, it: Item)
    requires Kept(db, it) && (it.Ip? ==> Sound(db))
    requires e.DoBuyBlock? || e.DoGrantBlock? || e.DoReleaseBlock? || e.DoMoveBlock?
    ensures Fine(db, Step(db, e), e, it)
  {
    if Do(db, e).Refused? || e.DoMoveBlock? {
      SameFine(db, e, it);
    } else if e.DoReleaseBlock? {
      ReleaseFine(db, e, it);
    } else {
      NewBlockFine(db, e, it, Step(db, e));
    }
  }

  /** One timely step on one item.  Only single addresses need a sound state and a clear purchase. */
  lemma StepFine(db: Db, e: Event, it: Item)
    requires Kept(db, it) && Timely(db, e) && (it.Ip? ==> Sound(db) && BuysClear(db, e, it))
    ensures Fine(db, Step(db, e), e, it)
  {
    match e
    case DoCharge(_, _, _) => ChargeFine(db, e, it);
    case DoCancel(_, _) => CancelFine(db, e, it);
    case DoBuyTunnel(_, _, _, _, _) => TunnelFine(db, e, it);
    case DoActivate(_) => TunnelFine(db, e, it);
    case DoChangeTier(_, _, _, _, _) => TierFine(db, e, it);
    case DoDeleteTunnel(_, _) => TunnelFine(db, e, it);
    case DoDeleteGre(_, _) => TunnelFine(db, e, it);
    case DoSetPrice(_, _) => PriceFine(db, e, it);
    case DoBuyIp(_, _, _, _, _) => IpFine(db, e, it);
    case DoGrantIp(_, _, _, _, _) => IpFine(db, e, it);
    case DoReleaseIp(_, _) => IpFine(db, e, it);
    case DoMoveIp(_, _, _) => IpFine(db, e, it);
    case DoBuyBlock(_, _, _, _, _, _, _) => BlockFine(db, e, it);
    case DoGrantBlock(_, _, _, _, _, _, _) => BlockFine(db, e, it);
    case DoReleaseBlock(_, _) => BlockFine(db, e, it);
    case DoMoveBlock(_, _, _) => BlockFine(db, e, it);
    case _ => SameFine(db, e, it);
  }

  /** What a run must promise about an item: nothing for tunnels and blocks; for a single address, a
      sound start and no purchase of it while it is suspended. */
  ghost predicate Fair(db: Db, es: seq<Event>, it: Item) {
    TimelyRun(db, es) && (it.Ip? ==> Sound(db) && BuysClearRun(db, es, it))
  }

  lemma ClearPrefix(db: Db, es: seq<Event>, it: Item, i: nat)
    requires BuysClearRun(db, es, it) && i <= |es|
    ensures BuysClearRun(db, es[..i], it)
  {
    forall j | 0 <= j < i ensures BuysClear(Run(db, es[..i][..j]), es[..i][j], it) {
      assert es[..i][..j] == es[..j] && BuysClear(Run(db, es[..j]), es[j], it);
    }
  }

  lemma FairPrefix(db: Db, es: seq<Event>, it: Item, i: nat)
    requires Fair(db, es, it) && i <= |es|
    ensures Fair(db, es[..i], it)
    ensures i < |es| ==> Timely(Run(db, es[..i]), es[i]) && (it.Ip? ==> BuysClear(Run(db, es[..i]), es[i], it))
  {
    PrefixOk(db, 0, es, i);
    if it.Ip? { ClearPrefix(db, es, it, i); }
  }

  lemma FairState(db: Db, es: seq<Event>, it: Item)
    requires Fair(db, es, it)
    ensures it.Ip? ==> Sound(Run(db, es))
  {
    if it.Ip? { OwnershipKept(db, es); }
  }

  lemma {:induction false} ItemGraceKept(db: Db, es: seq<Event>, it: Item)
    requires Kept(db, it) && Fair(db, es, it)
    ensures Kept(Run(db, es), it)
    decreases |es|
  {
    if es != [] {
      var n := |es| - 1;
      FairPrefix(db, es, it, n);
      ItemGraceKept(db, es[..n], it);
      FairState(db, es[..n], it);
      StepFine(Run(db, es[..n]), es[n], it);
    }
  }

  /** Tunnels and blocks: over every timely run, whatever else happens in it, the two dates stay both
      null or three days apart and agree with the status. */
  lemma GraceKept(db: Db, es: seq<Event>, it: Item)
    requires !it.Ip? && Kept(db, it) && TimelyRun(db, es)
    ensures Kept(Run(db, es), it)
  {
    ItemGraceKept(db, es, it);
  }

  /** Single addresses: the same, as long as this address is not bought while it is suspended. */
  lemma IpGraceKept(db: Db, es: seq<Event>, a: nat)
    requires Sound(db) && Kept(db, Ip(a)) && TimelyRun(db, es) && BuysClearRun(db, es, Ip(a))
    ensures Kept(Run(db, es), Ip(a))
  {
    ItemGraceKept(db, es, Ip(a));
  }

  /** Repeated failing ticks never move the deadline. */
  lemma FailingTickKeepsDeadline(db: Db, it: Item, now: int, live: Option<nat>)
    requires it in db.subs && db.subs[it].suspendedAt.Some? && db.subs[it].deleteAfter.Some?
    requires Charge(db, it, now, live).1 == SuspendedNow
    ensures var s := Charge(db, it, now, live).0.subs[it];
            s.suspendedAt == db.subs[it].suspendedAt && s.deleteAfter == db.subs[it].deleteAfter &&
            s.status == Suspended
  {
  }

  // ----- where a suspension comes from -----

  /** The j-th event found too little money for the item at time `at` and suspended it, and nothing
      after it, up to the n-th event, paid for the item. */
  ghost predicate UnpaidSince(db: Db, es: seq<Event>, n: nat, j: nat, it: Item, at: int)
    requires n <= |es|
  {
    && j < n && es[j].DoCharge? && es[j].it == it && es[j].at == at
    && Unpaid(Run(db, es[..j]), it, es[j].at, es[j].live)
    && forall k :: j < k < n ==> !Settles(Run(db, es[..k]), es[k], it)
  }

  /** The balance was below the price, and the item was suspended for it. */
  ghost predicate Unpaid(db: Db, it: Item, now: int, live: Option<nat>) {
    && Chargeable(db, it) && PriceOf(db.subs[it], live).Some? && db.subs[it].owner.value in db.books.wallets
    && db.books.wallets[db.subs[it].owner.value].balance < PriceOf(db.subs[it], live).value
    && Charge(db, it, now, live).1 == SuspendedNow
  }

  lemma SuspendedIsUnpaid(db: Db, it: Item, now: int, live: Option<nat>)
    requires Charge(db, it, now, live).1 == SuspendedNow
    ensures Unpaid(db, it, now, live)
  {
  }

  /** A suspension date found after a step was there before it and was not settled, or the step set it. */
  ghost predicate Source(s: Db, e: Event, it: Item, at: int) {
    || (it in s.subs && s.subs[it].suspendedAt == Some(at) && !Settles(s, e, it))
    || (e.DoCharge? && e.it == it && e.at == at && Unpaid(s, it, at, e.live))
  }

  lemma StepSource(s: Db, e: Event, it: Item, at: int)
    requires Kept(s, it) && Timely(s, e) && (it.Ip? ==> Sound(s) && BuysClear(s, e, it))
    requires it in Step(s, e).subs && Step(s, e).subs[it].suspendedAt == Some(at)
    ensures Source(s, e, it, at)
  {
    StepFine(s, e, it);
    if !(it in s.subs && s.subs[it].suspendedAt == Some(at) && !Settles(s, e, it)) {
      SuspendedIsUnpaid(s, it, e.at, e.live);
    }
  }

  lemma RunSource(db: Db, es: seq<Event>, m: nat, it: Item, at: int)
    requires Kept(db, it) && Fair(db, es, it) && m < |es|
    requires it in Run(db, es[..m + 1]).subs && Run(db, es[..m + 1]).subs[it].suspendedAt == Some(at)
    ensures Source(Run(db, es[..m]), es[m], it, at)
  {
    FairPrefix(db, es, it, m);
    ItemGraceKept(db, es[..m], it);
    FairState(db, es[..m], it);
    assert es[..m + 1][..m] == es[..m];
    StepSource(Run(db, es[..m]), es[m], it, at);
  }

  /** Follow a suspension date back through the states ss[0], ss[1], ... to the tick that set it. */
  lemma {:induction false} TraceBack(ss: seq<Db>, es: seq<Event>, n: nat, it: Item, at: int) returns (j: nat)
    requires |ss| == |es| + 1 && n <= |es|
    requires it in ss[0].subs ==> ss[0].subs[it].suspendedAt.None?
    requires forall m :: 0 <= m < n && it in ss[m + 1].subs && ss[m + 1].subs[it].suspendedAt == Some(at) ==>
               Source(ss[m], es[m], it, at)
    requires it in ss[n].subs && ss[n].subs[it].suspendedAt == Some(at)
    ensures j < n && es[j].DoCharge? && es[j].it == it && es[j].at == at && Unpaid(ss[j], it, at, es[j].live)
    ensures forall k :: j < k < n ==> !Settles(ss[k], es[k], it)
    decreases n
  {
    var m := n - 1;
    assert Source(ss[m], es[m], it, at);
    if it in ss[m].subs && ss[m].subs[it].suspendedAt == Some(at) && !Settles(ss[m], es[m], it) {
      j := TraceBack(ss, es, m, it, at);
    } else {
      j := m;
    }
  }

  lemma SuspendedSince(db: Db, es: seq<Event>, n: nat, it: Item, at: int) returns (j: nat)
    requires Kept(db, it) && Fair(db, es, it) && n <= |es|
    requires it in db.subs ==> db.subs[it].suspendedAt.None?
    requires it in Run(db, es[..n]).subs && Run(db, es[..n]).subs[it].suspendedAt == Some(at)
    ensures UnpaidSince(db, es, n, j, it, at)
  {
    var ss := seq(|es| + 1, i requires 0 <= i <= |es| => Run(db, es[..i]));
    assert ss[0] == db by { assert es[..0] == []; }
    forall m | 0 <= m < n && it in ss[m + 1].subs && ss[m + 1].subs[it].suspendedAt == Some(at)
      ensures Source(ss[m], es[m], it, at)
    {
      RunSource(db, es, m, it, at);
    }
    j := TraceBack(ss, es, n, it, at);
    forall k | j < k < n ensures !Settles(Run(db, es[..k]), es[k], it) { assert ss[k] == Run(db, es[..k]); }
  }

  lemma ItemCancelled(db: Db, es: seq<Event>, i: nat) returns (j: nat)
    requires i < |es| && es[i].DoCancel? && Kept(db, es[i].it) && Fair(db, es, es[i].it)
    requires es[i].it in db.subs ==> db.subs[es[i].it].suspendedAt.None?
    ensures j < i && es[j].DoCharge? && es[j].at + GRACE <= es[i].at && UnpaidSince(db, es, i, j, es[i].it, es[j].at)
  {
    var s, it := Run(db, es[..i]), es[i].it;
    FairPrefix(db, es, it, i);
    ItemGraceKept(db, es[..i], it);
    assert ItemOk(s, it);
    j := SuspendedSince(db, es, i, it, s.subs[it].suspendedAt.value);
  }

  /** Grace safety for tunnels and blocks: in every timely run, a cancellation at time t of an item that
      was not suspended at the start implies an unpaid tick at or before t minus three days, with the
      balance below the price, and no successful charge or tier change of the item since. */
  lemma CancelledAfterGrace(db: Db, es: seq<Event>, i: nat) returns (j: nat)
    requires i < |es| && es[i].DoCancel? && !es[i].it.Ip? && TimelyRun(db, es)
    requires Kept(db, es[i].it) && (es[i].it in db.subs ==> db.subs[es[i].it].suspendedAt.None?)
    ensures j < i && es[j].DoCharge? && es[j].at + GRACE <= es[i].at && UnpaidSince(db, es, i, j, es[i].it, es[j].at)
  {
    j := ItemCancelled(db, es, i);
  }

  /** The same for a single address that is never bought while suspended; a purchase settles it too. */
  lemma IpCancelledAfterGrace(db: Db, es: seq<Event>, i: nat) returns (j: nat)
    requires i < |es| && es[i].DoCancel? && es[i].it.Ip? && TimelyRun(db, es)
    requires Sound(db) && BuysClearRun(db, es, es[i].it)
    requires Kept(db, es[i].it) && (es[i].it in db.subs ==> db.subs[es[i].it].suspendedAt.None?)
    ensures j < i && es[j].DoCharge? && es[j].at + GRACE <= es[i].at && UnpaidSince(db, es, i, j, es[i].it, es[j].at)
  {
    j := ItemCancelled(db, es, i);
  }

  /** No tick both charges or suspends an item and cancels it: what it settled at `now` is not expired
      at `now`. */
  lemma SettledNotExpired(db: Db, it: Item, now: int, live: Option<nat>)
    requires Due(db, it, now) && Charge(db, it, now, live).1 in {Charged, SuspendedNow}
    ensures !Expired(Charge(db, it, now, live).0, it, now)
  {
  }

  // ----- the purchase that breaks it -----

  /** buyPublicIp on a suspended row: the new owner pays, yet the old deadline stays in place, so the
      address is cancelled when it passes. */
  lemma BoughtSuspendedIsCancelled(db: Db, user: User, p: nat, a: nat, price: nat, now: int)
    requires Ip(a) in db.subs && db.subs[Ip(a)].status == Suspended && db.subs[Ip(a)].deleteAfter.Some?
    requires BuyIp(db, user, p, a, price, now).Done?
    ensures var d := BuyIp(db, user, p, a, price, now).db;
            d.subs[Ip(a)].status == Current && d.subs[Ip(a)].owner == Some(user) &&
            forall t :: t >= db.subs[Ip(a)].deleteAfter.value ==> Expired(d, Ip(a), t)
  {
  }

  /** Exactly when a successful purchase leaves the grace columns in order: the row, whatever its
      status, carried no suspension date. */
  lemma BuyIpGraceIff(db: Db, user: User, p: nat, a: nat, price: nat, now: int)
    requires Kept(db, Ip(a)) && BuyIp(db, user, p, a, price, now).Done?
    ensures Kept(BuyIp(db, user, p, a, price, now).db, Ip(a)) <==>
            (Ip(a) in db.subs ==> db.subs[Ip(a)].suspendedAt.None?)
  {
  }
}

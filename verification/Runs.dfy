/** Runs of the control plane: any interleaving of the transactions, and what all of them keep. */
module Runs {
  import opened Common
  import opened Ledger
  import opened Tables
  import opened Placement
  import Arith
  import Plans = SalePlans

  datatype Event =
    | DoCharge(it: Item, at: int, live: Option<nat>)
    | DoCancel(it: Item, at: int)
    | DoBuyTunnel(user: User, t: nat, tier: nat, price: nat, at: int)
    | DoActivate(t: nat)
    | DoChangeTier(user: User, t: nat, tier: nat, price: nat, at: int)
    | DoDeleteTunnel(user: User, t: nat)
    | DoDeleteGre(user: User, t: nat)
    | DoBuyIp(user: User, p: nat, a: nat, price: nat, at: int)
    | DoGrantIp(user: User, p: nat, a: nat, price: nat, at: int)
    | DoMoveIp(user: User, a: nat, to: Option<nat>)
    | DoReleaseIp(user: User, a: nat)
    | DoBuyBlock(user: User, b: nat, p: nat, net: nat, size: nat, price: nat, at: int)
    | DoGrantBlock(user: User, b: nat, p: nat, net: nat, size: nat, price: nat, at: int)
    | DoMoveBlock(user: User, b: nat, to: Option<nat>)
    | DoReleaseBlock(user: User, b: nat)
    | DoAdjust(user: User, amount: int)
    | DoRedeem(user: User, code: nat, value: nat)
    | DoSetPrice(it: Item, price: nat)
    | DoAddPool(p: nat, net: nat, len: nat, mode: Plans.Mode)
    | DoAddPlan(p: nat, net: nat, len: nat, mode: Plans.Mode)
    | DoOpen(user: User)

  ghost function Do(db: Db, e: Event): Tx {
    match e
    case DoCharge(it, at, live) => Done(Charge(db, it, at, live).0)
    case DoCancel(it, _) => Done(Cancel(db, it))
    case DoBuyTunnel(user, t, tier, price, at) => BuyTunnel(db, user, t, tier, price, at)
    case DoActivate(t) => Activate(db, t)
    case DoChangeTier(user, t, tier, price, at) => ChangeTier(db, user, t, tier, price, at)
    case DoDeleteTunnel(user, t) => DeleteTunnel(db, user, t)
    case DoDeleteGre(user, t) => DeleteGreTunnel(db, user, t)
    case DoBuyIp(user, p, a, price, at) => BuyIp(db, user, p, a, price, at)
    case DoGrantIp(user, p, a, price, at) => GrantIp(db, user, p, a, price, at)
    case DoMoveIp(user, a, to) => MoveIp(db, user, a, to)
    case DoReleaseIp(user, a) => ReleaseIp(db, user, a)
    case DoBuyBlock(user, b, p, net, size, price, at) => BuyBlock(db, user, b, p, net, size, price, at)
    case DoGrantBlock(user, b, p, net, size, price, at) => GrantBlock(db, user, b, p, net, size, price, at)
    case DoMoveBlock(user, b, to) => MoveBlock(db, user, b, to)
    case DoReleaseBlock(user, b) => ReleaseBlock(db, user, b)
    case DoAdjust(user, amount) => AdjustCredit(db, user, amount)
    case DoRedeem(user, code, value) => RedeemCredit(db, user, code, value)
    case DoSetPrice(it, price) => OverridePrice(db, it, price)
    case DoAddPool(p, net, len, mode) => AddPool(db, p, net, len, mode)
    case DoAddPlan(p, net, len, mode) => AddSalePlan(db, p, net, len, mode)
    case DoOpen(user) => OpenWallet(db, user)
  }

  ghost function Step(db: Db, e: Event): Db {
    match Do(db, e)
    case Done(d) => d
    case Refused => db
  }

  ghost function Run(db: Db, es: seq<Event>): Db
    decreases |es|
  {
    if es == [] then db else Step(Run(db, es[..|es| - 1]), es[|es| - 1])
  }

  /** A tick charges an item that is due and cancels one whose grace is over: what it selected still
      holds when the row lock is taken. */
  ghost predicate Timely(db: Db, e: Event) {
    match e
    case DoCharge(it, at, _) => Due(db, it, at)
    case DoCancel(it, at) => Expired(db, it, at)
    case _ => true
  }

  /** buyPublicIp is not pointed at somebody's suspended address. */
  ghost predicate Careful(db: Db, e: Event) {
    e.DoBuyIp? && Ip(e.a) in db.subs ==> db.subs[Ip(e.a)].status != Suspended
  }

  ghost predicate TimelyRun(db: Db, es: seq<Event>) {
    forall i :: 0 <= i < |es| ==> Timely(Run(db, es[..i]), es[i])
  }

  ghost predicate CarefulRun(db: Db, es: seq<Event>) {
    forall i :: 0 <= i < |es| ==> Careful(Run(db, es[..i]), es[i])
  }

  lemma RunPrefix(db: Db, es: seq<Event>)
    requires |es| > 0
    ensures var n := |es| - 1;
            Run(db, es) == Step(Run(db, es[..n]), es[n]) &&
            (TimelyRun(db, es) ==> TimelyRun(db, es[..n]) && Timely(Run(db, es[..n]), es[n])) &&
            (CarefulRun(db, es) ==> CarefulRun(db, es[..n]) && Careful(Run(db, es[..n]), es[n]))
  {
    var n := |es| - 1;
    assert forall i :: 0 <= i < n ==> es[..n][..i] == es[..i];
  }

  // ----- conservation of money -----

  lemma DebitKeeps(db: Db, user: User, price: nat, key: IdemKey)
    requires Balanced(db.books)
    ensures Debit(db, user, price, key).Done? ==> Balanced(Debit(db, user, price, key).db.books)
  {
    if CanPay(db, user, price) && !Used(db.books, key) {
      PostKeeps(db.books, user, -(price as int), Some(key));
    }
  }

  lemma ChargeConserves(db: Db, it: Item, now: int, live: Option<nat>)
    requires Balanced(db.books)
    ensures Balanced(Charge(db, it, now, live).0.books)
  {
    if Charge(db, it, now, live).1 == Charged {
      var s := db.subs[it];
      PostKeeps(db.books, s.owner.value, -(PriceOf(s, live).value as int), Some(Renewal(it, Day(CycleOf(s)))));
    }
  }

  lemma PurchaseConserves(db: Db, e: Event)
    requires Balanced(db.books) && (e.DoBuyTunnel? || e.DoBuyIp? || e.DoBuyBlock?)
    ensures Balanced(Step(db, e).books)
  {
    var it := if e.DoBuyTunnel? then Tunnel(e.t) else if e.DoBuyIp? then Ip(e.a) else Block(e.b);
    DebitKeeps(db, e.user, e.price, Purchase(it, e.at));
  }

  lemma TierConserves(db: Db, user: User, t: nat, tier: nat, price: nat, now: int)
    requires Balanced(db.books) && ChangeTier(db, user, t, tier, price, now).Done?
    ensures Balanced(ChangeTier(db, user, t, tier, price, now).db.books)
  {
    DebitKeeps(db, user, price, TierChange(t, db.tiers[t], tier, now / 1000));
  }

  lemma CreditConserves(db: Db, e: Event)
    requires Balanced(db.books) && (e.DoAdjust? || e.DoRedeem? || e.DoOpen?)
    ensures Balanced(Step(db, e).books)
  {
    if Do(db, e).Done? {
      match e
      case DoAdjust(user, amount) => PostKeeps(db.books, user, amount, None);
      case DoRedeem(user, code, value) =>
        assert WalletOk(db.books, user);
        PostKeeps(db.books, user, value, Some(Redemption(code, user)));
      case DoOpen(user) => OpenKeeps(db.books, user);
    }
  }

  lemma StepConserves(db: Db, e: Event)
    requires Balanced(db.books)
    ensures Balanced(Step(db, e).books)
  {
    match e
    case DoCharge(it, at, live) => ChargeConserves(db, it, at, live);
    case DoBuyTunnel(_, _, _, _, _) => PurchaseConserves(db, e);
    case DoBuyIp(_, _, _, _, _) => PurchaseConserves(db, e);
    case DoBuyBlock(_, _, _, _, _, _, _) => PurchaseConserves(db, e);
    case DoChangeTier(user, t, tier, price, at) =>
      if Do(db, e).Done? { TierConserves(db, user, t, tier, price, at); }
    case DoAdjust(_, _) => CreditConserves(db, e);
    case DoRedeem(_, _, _) => CreditConserves(db, e);
    case DoOpen(_) => CreditConserves(db, e);
    case _ => assert Step(db, e).books == db.books;
  }

  /** Ledger conservation over every run of all the money steps, without any side condition. */
  lemma {:induction false} LedgerConserved(db: Db, es: seq<Event>)
    requires Balanced(db.books)
    ensures Balanced(Run(db, es).books)
    decreases |es|
  {
    if es != [] {
      RunPrefix(db, es);
      LedgerConserved(db, es[..|es| - 1]);
      StepConserves(Run(db, es[..|es| - 1]), es[|es| - 1]);
    }
  }

  // ----- ownership and counters -----

  lemma WindowFits(db: Db, p: nat, net: nat, size: nat)
    requires p in db.pools && Plans.Within(Plans.Range(net, size), RangeOf(db.pools[p]))
    ensures forall a :: net <= a < net + size ==> InPool(db, p, a)
  {
    forall a | net <= a < net + size ensures InPool(db, p, a) {
      assert Plans.In(Plans.Range(net, size), a);
    }
  }

  lemma OfferedFits(db: Db, p: nat, net: nat, size: nat)
    requires PoolsValid(db) && size in Plans.BLOCK_SIZES && Offered(db, p, net, size)
    ensures BlockFits(db, p, net, size)
  {
    var pool, plans := RangeOf(db.pools[p]), db.pools[p].plans;
    var r, q: nat :|
      Plans.OnSale(pool, plans, Plans.Blocks(size), r) && Plans.Window(r, size, q) && net == r.net + Plans.Offset(size, q);
    Plans.WindowInside(pool, plans, size, r, q, net);
    WindowFits(db, p, net, size);
  }

  lemma NewBlockId(db: Db, b: nat)
    requires Placed(db)
    ensures b in db.extents ==> Block(b) in db.subs
  {
    if b in db.extents { assert BlockOk(db, b); }
  }

  ghost predicate Sound(db: Db) {
    Placed(db) && PoolsValid(db)
  }

  lemma PoolsValidSame(db: Db, d: Db)
    requires PoolsValid(db) && d.pools.Keys == db.pools.Keys
    requires forall p :: p in db.pools ==>
               RangeOf(d.pools[p]) == RangeOf(db.pools[p]) && d.pools[p].plans == db.pools[p].plans
    ensures PoolsValid(d)
  {
  }

  /** A step on the billing columns of one row that neither takes nor frees an address. */
  lemma BillingStep(db: Db, d: Db, it: Item)
    requires Sound(db) && d.seats == db.seats && d.extents == db.extents && d.pools == db.pools
    requires it in d.subs && d.subs == db.subs[it := d.subs[it]]
    requires it !in db.subs ==> it.Tunnel?
    requires it in db.subs ==> d.subs[it].owner == db.subs[it].owner
    requires it in db.subs && !it.Tunnel? ==> Live(d.subs[it]) == Live(db.subs[it])
    requires it.Ip? && it.addr in db.seats && db.seats[it.addr].block.Some? ==> d.subs[it].status == db.subs[it].status
    ensures Sound(d) && (Counted(db) ==> Counted(d))
  {
    BillingKeeps(db, it, d.subs[it]);
    PlacedSame(db.(subs := d.subs), d);
    PoolsValidSame(db, d);
    if Counted(db) { CountedSame(db, d); }
  }

  lemma ReseatCounted(db: Db, d: Db, moved: set<nat>, to: Option<nat>)
    requires Counted(db) && d == db.(seats := Reseat(db.seats, moved, to))
    ensures Counted(d)
  {
    CountedSame(db, d);
  }

  /** A step that only changes which tunnel some addresses are attached to. */
  lemma ReseatStep(db: Db, d: Db, moved: set<nat>, to: Option<nat>)
    requires Sound(db) && Whole(db, moved) && d == db.(seats := Reseat(db.seats, moved, to))
    requires to.Some? ==> forall a :: a in moved && a in db.seats && Ip(a) in db.subs ==> AttachedOk(db, a, to.value)
    ensures Sound(d) && (Counted(db) ==> Counted(d))
  {
    ReseatKeeps(db, moved, to);
    if Counted(db) { ReseatCounted(db, d, moved, to); }
  }

  lemma DetachStep(db: Db, d: Db, t: nat)
    requires Sound(db) && d == db.(seats := Detach(db.seats, t))
    ensures Sound(d) && (Counted(db) ==> Counted(d))
  {
    DetachIsReseat(db, t);
    ReseatStep(db, d, (set a | a in db.seats && db.seats[a].tunnel == Some(t)), None);
  }

  /** A charge that goes through touches its own row, which is live afterwards. */
  lemma ChargedRow(db: Db, it: Item, now: int, live: Option<nat>, d: Db, o: Outcome)
    requires Charge(db, it, now, live) == (d, o) && o in {Charged, SuspendedNow}
    ensures d.seats == db.seats && d.extents == db.extents && d.pools == db.pools && Chargeable(db, it)
    ensures it in d.subs && d.subs == db.subs[it := d.subs[it]]
    ensures d.subs[it].owner == db.subs[it].owner && Live(d.subs[it])
  {
  }

  lemma ChargePlaced(db: Db, it: Item, now: int, live: Option<nat>)
    requires Sound(db) && Due(db, it, now)
    ensures Sound(Charge(db, it, now, live).0)
    ensures Counted(db) ==> Counted(Charge(db, it, now, live).0)
  {
    var (d, o) := Charge(db, it, now, live);
    if o in {Charged, SuspendedNow} {
      ChargedRow(db, it, now, live, d, o);
      BillingStep(db, d, it);
    }
  }

  /** The charge reads a row with a price and a wallet, and either suspends it or debits an unused key. */
  ghost predicate Acts(db: Db, it: Item, live: Option<nat>) {
    && Chargeable(db, it) && PriceOf(db.subs[it], live).Some? && db.subs[it].owner.value in db.books.wallets
    && (CanPay(db, db.subs[it].owner.value, PriceOf(db.subs[it], live).value) ==>
          !Used(db.books, Renewal(it, Day(CycleOf(db.subs[it])))))
  }

  /** A released block has no members, so making its row live again breaks ownership. */
  lemma ReleasedIsEmpty(db: Db, d: Db, b: nat)
    requires Placed(db) && b in db.extents && Block(b) in db.subs && !Live(db.subs[Block(b)])
    requires d.seats == db.seats && d.extents == db.extents && Block(b) in d.subs && Live(d.subs[Block(b)])
    ensures !Placed(d)
  {
    var x := db.extents[b];
    assert BlockOk(db, b);
    assert InExtent(x, x.net);
    assert x.net in db.seats ==> SeatOk(db, x.net);
    assert !BlockOk(d, b);
  }

  /** Exactly when a charge, timely or not, keeps ownership: it is not for a block that is no longer live. */
  lemma ChargeSoundIff(db: Db, it: Item, now: int, live: Option<nat>)
    requires Sound(db) && Acts(db, it, live)
    ensures Sound(Charge(db, it, now, live).0) <==> (it.Block? ==> Live(db.subs[it]))
  {
    var (d, o) := Charge(db, it, now, live);
    ChargedRow(db, it, now, live, d, o);
    if it.Block? && !Live(db.subs[it]) {
      ReleasedIsEmpty(db, d, it.b);
    } else {
      if it.Ip? { assert SeatOk(db, it.addr); }
      BillingStep(db, d, it);
    }
  }

  lemma CancelTunnelPlaced(db: Db, t: nat)
    requires Sound(db)
    ensures Sound(CancelTunnel(db, t)) && (Counted(db) ==> Counted(CancelTunnel(db, t)))
  {
    var d := CancelTunnel(db, t);
    if d != db {
      var mid := db.(seats := d.seats);
      if d.seats == db.seats { assert mid == db; } else { DetachStep(db, mid, t); }
      BillingStep(mid, d, Tunnel(t));
    }
  }

  ghost predicate FreedIp(db: Db, d: Db, a: nat) {
    && a in db.seats && Ip(a) in db.subs && Live(db.subs[Ip(a)]) && db.seats[a].block.None?
    && Ip(a) in d.subs && d.subs[Ip(a)].owner.None? && d.subs[Ip(a)].status == Closed
    && d == db.(subs := db.subs[Ip(a) := d.subs[Ip(a)]], seats := db.seats[a := db.seats[a].(tunnel := None)],
                pools := CountIn(db.pools, db.seats[a].pool, 1))
  }

  lemma FreedIpPlaced(db: Db, d: Db, a: nat)
    requires Placed(db) && FreedIp(db, d, a)
    ensures Placed(d)
  {
    FreeIpKeeps(db, a, d.subs[Ip(a)], d.pools);
  }

  lemma FreedIpCounted(db: Db, d: Db, a: nat)
    requires Placed(db) && Counted(db) && FreedIp(db, d, a)
    ensures Counted(d)
  {
    FreeIpCounted(db, a, d);
  }

  lemma CountInValid(db: Db, d: Db, p: nat, n: int)
    requires PoolsValid(db) && d.pools == CountIn(db.pools, p, n)
    ensures PoolsValid(d)
  {
  }

  /** One held single address goes back to its pool. */
  lemma FreeIpStep(db: Db, d: Db, a: nat)
    requires Sound(db) && FreedIp(db, d, a)
    ensures Sound(d) && (Counted(db) ==> Counted(d))
  {
    FreedIpPlaced(db, d, a);
    CountInValid(db, d, db.seats[a].pool, 1);
    if Counted(db) { FreedIpCounted(db, d, a); }
  }

  lemma FreeBlockStep(db: Db, b: nat, clear: bool)
    requires Sound(db) && LiveBlock(db, b)
    ensures Sound(FreeBlock(db, b, clear)) && (Counted(db) ==> Counted(FreeBlock(db, b, clear)))
  {
    FreeBlockKeeps(db, b, clear);
    CountInValid(db, FreeBlock(db, b, clear), db.extents[b].pool, db.extents[b].size);
    if Counted(db) { FreeBlockCounted(db, b, clear); }
  }

  lemma CancelPlaced(db: Db, it: Item, now: int)
    requires Sound(db) && Expired(db, it, now)
    ensures Sound(Cancel(db, it))
    ensures Counted(db) ==> Counted(Cancel(db, it))
  {
    match it
    case Tunnel(t) => CancelTunnelPlaced(db, t);
    case Ip(a) => FreeIpStep(db, CancelIp(db, a), a);
    case Block(b) => FreeBlockStep(db, b, true);
  }

  /** Steps on one tunnel row, and price overrides. */
  lemma TunnelPlaced(db: Db, e: Event)
    requires Sound(db) && (e.DoBuyTunnel? || e.DoActivate? || e.DoChangeTier? || e.DoDeleteTunnel? || e.DoSetPrice?)
    ensures Sound(Step(db, e)) && (Counted(db) ==> Counted(Step(db, e)))
  {
    var d := Step(db, e);
    if d != db {
      BillingStep(db, d, if e.DoSetPrice? then e.it else Tunnel(e.t));
    }
  }

  lemma DeleteGrePlaced(db: Db, user: User, t: nat)
    requires Sound(db) && DeleteGreTunnel(db, user, t).Done?
    ensures Sound(DeleteGreTunnel(db, user, t).db)
    ensures Counted(db) ==> Counted(DeleteGreTunnel(db, user, t).db)
  {
    var d := DeleteGreTunnel(db, user, t).db;
    DetachStep(db, db.(seats := d.seats), t);
    BillingStep(db.(seats := d.seats), d, Tunnel(t));
  }

  lemma BooksPlaced(db: Db, d: Db)
    requires Sound(db) && d == db.(books := d.books)
    ensures Sound(d) && (Counted(db) ==> Counted(d))
  {
    PlacedSame(db, d);
    if Counted(db) { CountedSame(db, d); }
  }

  lemma ClaimIpPlaced(db: Db, user: User, p: nat, a: nat, price: nat, now: int)
    requires Sound(db) && InPool(db, p, a)
    requires Ip(a) in db.subs ==> db.subs[Ip(a)].status != Current
    ensures Sound(ClaimIp(db, user, p, a, price, now))
    ensures Counted(db) && (Ip(a) in db.subs ==> !Live(db.subs[Ip(a)])) ==>
              Counted(ClaimIp(db, user, p, a, price, now))
  {
    ClaimIpKeeps(db, user, p, a, price, now);
    if Counted(db) { ClaimIpCountedIff(db, user, p, a, price, now); }
  }

  lemma BuyIpPlaced(db: Db, e: Event)
    requires Sound(db) && (e.DoBuyIp? || e.DoGrantIp?) && Do(db, e).Done?
    ensures Sound(Step(db, e)) && (Counted(db) && Careful(db, e) ==> Counted(Step(db, e)))
  {
    if e.DoBuyIp? {
      var d := Debit(db, e.user, e.price, Purchase(Ip(e.a), e.at)).db;
      BooksPlaced(db, d);
      ClaimIpPlaced(d, e.user, e.p, e.a, e.price, e.at);
    } else {
      ClaimIpPlaced(db, e.user, e.p, e.a, e.price, e.at);
    }
  }

  lemma ReleaseIpPlaced(db: Db, user: User, a: nat)
    requires Sound(db) && ReleaseIp(db, user, a).Done?
    ensures Sound(ReleaseIp(db, user, a).db) && (Counted(db) ==> Counted(ReleaseIp(db, user, a).db))
  {
    assert db.seats[a := db.seats[a].(tunnel := None)] == db.seats;
    FreeIpStep(db, ReleaseIp(db, user, a).db, a);
  }

  lemma MoveIpPlaced(db: Db, user: User, a: nat, to: Option<nat>)
    requires Sound(db) && MoveIp(db, user, a, to).Done?
    ensures Sound(MoveIp(db, user, a, to).db) && (Counted(db) ==> Counted(MoveIp(db, user, a, to).db))
  {
    ReseatStep(db, MoveIp(db, user, a, to).db, {a}, to);
  }

  lemma MembersWhole(db: Db, b: nat)
    ensures Whole(db, Members(db, b))
  {
  }

  lemma MembersOwned(db: Db, user: User, b: nat, a: nat)
    requires Placed(db) && Owns(db, user, Block(b)) && a in Members(db, b)
    ensures Ip(a) in db.subs && Live(db.subs[Ip(a)]) && db.subs[Ip(a)].owner == Some(user)
  {
    assert SeatOk(db, a);
  }

  lemma MoveBlockPlaced(db: Db, user: User, b: nat, to: Option<nat>)
    requires Sound(db) && MoveBlock(db, user, b, to).Done?
    ensures Sound(MoveBlock(db, user, b, to).db) && (Counted(db) ==> Counted(MoveBlock(db, user, b, to).db))
  {
    var ms := Members(db, b);
    forall a | a in ms && a in db.seats && Ip(a) in db.subs ensures to.Some? ==> AttachedOk(db, a, to.value) {
      MembersOwned(db, user, b, a);
    }
    MembersWhole(db, b);
    if FromTunnel(db, b) != to { ReseatStep(db, MoveBlock(db, user, b, to).db, ms, to); }
  }

  lemma ClaimedStep(db: Db, d: Db, user: User, b: nat, p: nat, net: nat, size: nat)
    requires Sound(db) && BlockFits(db, p, net, size) && AllFree(db, p, net, size) && Block(b) !in db.subs
    requires Claimed(db, d, user, b, p, net, size) && PoolsTake(db, d, p, size)
    ensures Sound(d) && (Counted(db) ==> Counted(d))
  {
    NewBlockId(db, b);
    ClaimedKeeps(db, d, user, b, p, net, size);
    PoolsValidSame(db, d);
    if Counted(db) {
      var ms := Addresses(net, size);
      ClaimedCounted(db, d, user, b, p, net, size, ms);
    }
  }

  lemma BuyBlockPlaced(db: Db, user: User, b: nat, p: nat, net: nat, size: nat, price: nat, now: int)
    requires Sound(db) && BuyBlock(db, user, b, p, net, size, price, now).Done?
    ensures var d := BuyBlock(db, user, b, p, net, size, price, now).db;
            Sound(d) && (Counted(db) ==> Counted(d))
  {
    var d := Debit(db, user, price, Purchase(Block(b), now)).db;
    BooksPlaced(db, d);
    OfferedFits(db, p, net, size);
    BooksFree(db, d, p, net, size);
    ClaimBlockIs(d, user, b, p, net, size, price, now);
    ClaimedStep(d, ClaimBlock(d, user, b, p, net, size, price, now), user, b, p, net, size);
  }

  lemma BooksFree(db: Db, d: Db, p: nat, net: nat, size: nat)
    requires d == db.(books := d.books) && BlockFits(db, p, net, size) && AllFree(db, p, net, size)
    ensures BlockFits(d, p, net, size) && AllFree(d, p, net, size)
  {
    forall a | net <= a < net + size ensures !Taken(d, p, a) && InPool(d, p, a) {
      assert !Taken(db, p, a) && InPool(db, p, a);
    }
  }

  lemma GrantFits(db: Db, user: User, b: nat, p: nat, net: nat, size: nat, price: nat, now: int)
    requires GrantBlock(db, user, b, p, net, size, price, now).Done?
    ensures BlockFits(db, p, net, size) && AllFree(db, p, net, size) && Block(b) !in db.subs
  {
    Plans.BlockMask(net, size);
  }

  lemma GrantBlockPlaced(db: Db, user: User, b: nat, p: nat, net: nat, size: nat, price: nat, now: int)
    requires Sound(db) && GrantBlock(db, user, b, p, net, size, price, now).Done?
    ensures var d := GrantBlock(db, user, b, p, net, size, price, now).db;
            Sound(d) && (Counted(db) ==> Counted(d))
  {
    GrantFits(db, user, b, p, net, size, price, now);
    ClaimBlockIs(db, user, b, p, net, size, price, now);
    ClaimedStep(db, ClaimBlock(db, user, b, p, net, size, price, now), user, b, p, net, size);
  }

  lemma ReleasedRow(db: Db, user: User, b: nat, d: Db)
    requires ReleaseBlock(db, user, b) == Done(d)
    ensures b in d.extents && d.books == db.books && d.subs.Keys == db.subs.Keys && Block(b) in db.subs
    ensures d.subs[Block(b)] == db.subs[Block(b)].(status := Closed) && d.subs[Block(b)].owner.Some?
  {
  }

  /** A block released between a tick's selection and its row lock is billed once more and its row is
      live again, over addresses that are free for sale. */
  lemma ReleaseThenCharge(db: Db, user: User, b: nat, d: Db, now: int, live: Option<nat>)
    requires Sound(db) && ReleaseBlock(db, user, b) == Done(d) && Acts(db, Block(b), live)
    ensures var (e, o) := Charge(d, Block(b), now, live);
            o in {Charged, SuspendedNow} && Block(b) in e.subs && Live(e.subs[Block(b)]) && !Sound(e)
  {
    ReleasedRow(db, user, b, d);
    ReleaseBlockPlaced(db, user, b);
    ChargeSoundIff(d, Block(b), now, live);
  }

  /** A customer with a block of two addresses that is due, and enough money. */
  function BlockHolder(): Db {
    var member := Sub(Some(0), Current, None, None, None, None);
    Db(Books(map[0 := Wallet(7, 7, 0)], []),
       map[Block(0) := Sub(Some(0), Current, Some(1), Some(0), None, None), Ip(4) := member, Ip(5) := member],
       map[4 := Seat(0, None, Some(0)), 5 := Seat(0, None, Some(0))], map[0 := Extent(0, 4, 2)],
       map[0 := Pool(4, 2, [], 0, 2)], map[])
  }

  lemma BlockHolderSound()
    ensures Sound(BlockHolder())
  {
    var db := BlockHolder();
    assert SeatOk(db, 4) && SeatOk(db, 5);
    assert BlockOk(db, 0);
    assert Plans.IsPow2(2) by { assert Arith.Pow2(1) == 2; }
  }

  /** It is released, and a tick that had selected it charges it and makes it active again. */
  lemma ReleaseThenChargeExample()
    ensures var db := BlockHolder();
            && Sound(db) && Due(db, Block(0), 0) && ReleaseBlock(db, 0, 0).Done?
            && var (e, o) := Charge(ReleaseBlock(db, 0, 0).db, Block(0), 0, None);
               o == Charged && e.subs[Block(0)].status == Current && !Sound(e)
  {
    BlockHolderSound();
    assert Acts(BlockHolder(), Block(0), None);
    ReleaseThenCharge(BlockHolder(), 0, 0, ReleaseBlock(BlockHolder(), 0, 0).db, 0, None);
  }

  lemma ReleaseBlockPlaced(db: Db, user: User, b: nat)
    requires Sound(db) && ReleaseBlock(db, user, b).Done?
    ensures Sound(ReleaseBlock(db, user, b).db) && (Counted(db) ==> Counted(ReleaseBlock(db, user, b).db))
  {
    FreeBlockStep(db, b, false);
  }

  /** The new pool overlaps no other. */
  lemma NewPoolApart(db: Db, p: nat, net: nat, len: nat, mode: Plans.Mode)
    requires PoolsApart(db) && AddPool(db, p, net, len, mode).Done?
    ensures PoolsApart(AddPool(db, p, net, len, mode).db)
    ensures forall q, a :: q != p ==> (InPool(AddPool(db, p, net, len, mode).db, q, a) <==> InPool(db, q, a))
  {
    var d := AddPool(db, p, net, len, mode).db;
    var range := Plans.CidrRange(net, len);
    forall q: nat, a: nat | q in db.pools && q != p ensures !(InPool(d, q, a) && InPool(d, p, a)) {
      Plans.OverlapSound(RangeOf(db.pools[q]), range);
      assert Plans.In(RangeOf(db.pools[q]), a) <==> InPool(d, q, a);
      assert Plans.In(range, a) <==> InPool(d, p, a);
    }
    forall q: nat, r: nat, a: nat | InPool(d, q, a) && InPool(d, r, a) ensures q == r {
      if q != p && r != p { assert InPool(db, q, a) && InPool(db, r, a); }
    }
  }

  lemma AddPoolPlaced(db: Db, p: nat, net: nat, len: nat, mode: Plans.Mode)
    requires Sound(db) && AddPool(db, p, net, len, mode).Done?
    ensures Sound(AddPool(db, p, net, len, mode).db)
  {
    var d := AddPool(db, p, net, len, mode).db;
    NewPoolApart(db, p, net, len, mode);
    Plans.AddPoolKeeps(net, len, mode);
    forall a | a in d.seats ensures SeatOk(d, a) { assert SeatOk(db, a); }
    forall b | b in d.extents ensures BlockOk(d, b) { assert BlockOk(db, b); }
  }

  lemma AddPoolCounted(db: Db, p: nat, net: nat, len: nat, mode: Plans.Mode)
    requires Placed(db) && Counted(db) && AddPool(db, p, net, len, mode).Done?
    ensures Counted(AddPool(db, p, net, len, mode).db)
  {
    var d := AddPool(db, p, net, len, mode).db;
    forall q | q in d.pools ensures CountOk(d, q) {
      assert HeldIn(d, q) == HeldIn(db, q);
      if q == p {
        forall a | a in db.seats ensures db.seats[a].pool != p { assert SeatOk(db, a); }
        assert HeldIn(d, p) == {};
      } else {
        assert CountOk(db, q);
      }
    }
  }

  lemma AddPlanPlaced(db: Db, p: nat, net: nat, len: nat, mode: Plans.Mode)
    requires Sound(db) && AddSalePlan(db, p, net, len, mode).Done?
    ensures var d := AddSalePlan(db, p, net, len, mode).db;
            Sound(d) && (Counted(db) ==> Counted(d))
  {
    var d := AddSalePlan(db, p, net, len, mode).db;
    Plans.AddSalePlanKeeps(RangeOf(db.pools[p]), db.pools[p].plans, net, len, mode);
    PlacedSame(db, d);
    if Counted(db) { CountedSame(db, d); }
  }

  lemma StepPlaced(db: Db, e: Event)
    requires Sound(db) && Timely(db, e)
    ensures Sound(Step(db, e)) && (Counted(db) && Careful(db, e) ==> Counted(Step(db, e)))
  {
    if Do(db, e).Done? {
      match e
      case DoCharge(it, at, live) => ChargePlaced(db, it, at, live);
      case DoCancel(it, at) => CancelPlaced(db, it, at);
      case DoBuyTunnel(_, _, _, _, _) => TunnelPlaced(db, e);
      case DoActivate(_) => TunnelPlaced(db, e);
      case DoChangeTier(_, _, _, _, _) => TunnelPlaced(db, e);
      case DoDeleteTunnel(_, _) => TunnelPlaced(db, e);
      case DoDeleteGre(user, t) => DeleteGrePlaced(db, user, t);
      case DoBuyIp(_, _, _, _, _) => BuyIpPlaced(db, e);
      case DoGrantIp(_, _, _, _, _) => BuyIpPlaced(db, e);
      case DoMoveIp(user, a, to) => MoveIpPlaced(db, user, a, to);
      case DoReleaseIp(user, a) => ReleaseIpPlaced(db, user, a);
      case DoBuyBlock(user, b, p, net, size, price, at) => BuyBlockPlaced(db, user, b, p, net, size, price, at);
      case DoGrantBlock(user, b, p, net, size, price, at) => GrantBlockPlaced(db, user, b, p, net, size, price, at);
      case DoMoveBlock(user, b, to) => MoveBlockPlaced(db, user, b, to);
      case DoReleaseBlock(user, b) => ReleaseBlockPlaced(db, user, b);
      case DoAdjust(_, _) => BooksPlaced(db, Step(db, e));
      case DoRedeem(_, _, _) => BooksPlaced(db, Step(db, e));
      case DoSetPrice(_, _) => TunnelPlaced(db, e);
      case DoAddPool(p, net, len, mode) =>
        AddPoolPlaced(db, p, net, len, mode);
        if Counted(db) { AddPoolCounted(db, p, net, len, mode); }
      case DoAddPlan(p, net, len, mode) => AddPlanPlaced(db, p, net, len, mode);
      case DoOpen(_) => BooksPlaced(db, Step(db, e));
    }
  }

  /** Exclusive, uniform ownership over every run whose charges and cancellations are timely. */
  lemma {:induction false} OwnershipKept(db: Db, es: seq<Event>)
    requires Sound(db) && TimelyRun(db, es)
    ensures Sound(Run(db, es))
    decreases |es|
  {
    if es != [] {
      RunPrefix(db, es);
      OwnershipKept(db, es[..|es| - 1]);
      StepPlaced(Run(db, es[..|es| - 1]), es[|es| - 1]);
    }
  }

  /** Pool accounting over every such run in which no purchase hits a suspended address. */
  lemma {:induction false} CountersKept(db: Db, es: seq<Event>)
    requires Sound(db) && Counted(db) && TimelyRun(db, es) && CarefulRun(db, es)
    ensures Counted(Run(db, es))
    decreases |es|
  {
    if es != [] {
      RunPrefix(db, es);
      OwnershipKept(db, es[..|es| - 1]);
      CountersKept(db, es[..|es| - 1]);
      StepPlaced(Run(db, es[..|es| - 1]), es[|es| - 1]);
    }
  }
}

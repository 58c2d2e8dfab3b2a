/** The price of a renewal: what an item was sold for, or last changed to, is what every renewal takes. */
module Prices {
  import opened Common
  import opened Ledger
  import opened Tables
  import opened Runs
  import opened Renewals
  import opened Effects

  /** The steps that write the item's price: a tier change of the tunnel, an override, or another sale of the
      single address. */
  ghost predicate Reprices(e: Event, it: Item) {
    || (e.DoChangeTier? && it == Tunnel(e.t))
    || (e.DoSetPrice? && it == e.it)
    || ((e.DoBuyIp? || e.DoGrantIp?) && it == Ip(e.a))
  }

  ghost predicate SamePrice(db: Db, d: Db, it: Item) {
    it in db.subs ==> it in d.subs && d.subs[it].price == db.subs[it].price
  }

  lemma ChargeKeepsPrice(db: Db, c: Item, now: int, live: Option<nat>, it: Item)
    ensures SamePrice(db, Charge(db, c, now, live).0, it)
  {
  }

  lemma CancelKeepsPrice(db: Db, c: Item, it: Item)
    ensures SamePrice(db, Cancel(db, c), it)
  {
    match c
    case Tunnel(t) => CancelTunnelDoes(db, t);
    case Ip(a) => CancelIpDoes(db, a);
    case Block(b) => CancelBlockDoes(db, b);
  }

  lemma ClaimKeepsPrice(db: Db, d: Db, u: User, b: nat, p: nat, net: nat, size: nat, price: nat, now: int, it: Item)
    requires BlockClaimed(db, d, u, b, p, net, size, price, now) && it != Block(b)
    ensures SamePrice(db, d, it)
  {
    if it.Ip? && net <= it.addr < net + size {
      assert MemberBilled(db.subs, d.subs, u, it.addr);
    } else {
      assert SameAt(db.subs, d.subs, it);
    }
  }

  lemma NewBlockKeepsPrice(db: Db, e: Event, d: Db, it: Item)
    requires (e.DoBuyBlock? || e.DoGrantBlock?) && Do(db, e) == Done(d) && it in db.subs
    ensures SamePrice(db, d, it)
  {
    if e.DoBuyBlock? {
      BuyBlockIff(db, e.user, e.b, e.p, e.net, e.size, e.price, e.at);
      BuyBlockDoes(db, e.user, e.b, e.p, e.net, e.size, e.price, e.at, d);
    } else {
      GrantBlockIff(db, e.user, e.b, e.p, e.net, e.size, e.price, e.at);
      GrantBlockDoes(db, e.user, e.b, e.p, e.net, e.size, e.price, e.at, d);
    }
    ClaimKeepsPrice(db, d, e.user, e.b, e.p, e.net, e.size, e.price, e.at, it);
  }

  lemma SmallStepPrice(db: Db, e: Event, it: Item)
    requires it in db.subs && !Reprices(e, it)
    requires !e.DoCharge? && !e.DoCancel? && !e.DoBuyBlock? && !e.DoGrantBlock? && !e.DoReleaseBlock?
    ensures SamePrice(db, Step(db, e), it)
  {
  }

  /** No other step changes an item's price. */
  lemma StepKeepsPrice(db: Db, e: Event, it: Item)
    requires it in db.subs && !Reprices(e, it)
    ensures SamePrice(db, Step(db, e), it)
  {
    match e
    case DoCharge(c, at, live) => ChargeKeepsPrice(db, c, at, live, it);
    case DoCancel(c, _) => CancelKeepsPrice(db, c, it);
    case DoBuyBlock(_, _, _, _, _, _, _) => if Do(db, e).Done? { NewBlockKeepsPrice(db, e, Step(db, e), it); }
    case DoGrantBlock(_, _, _, _, _, _, _) => if Do(db, e).Done? { NewBlockKeepsPrice(db, e, Step(db, e), it); }
    case DoReleaseBlock(u, b) => ReleaseBlockDoes(db, u, b);
    case _ => SmallStepPrice(db, e, it);
  }

  lemma {:induction false} PriceKept(db: Db, es: seq<Event>, it: Item)
    requires it in db.subs && forall i :: 0 <= i < |es| ==> !Reprices(es[i], it)
    ensures SamePrice(db, Run(db, es), it)
    decreases |es|
  {
    if es != [] {
      var n := |es| - 1;
      PriceKept(db, es[..n], it);
      StepKeepsPrice(Run(db, es[..n]), es[n], it);
    }
  }

  /** What one charge of the item, at this price, does: suspend when the balance is below it, and otherwise
      take exactly it, unless the cycle's key is in the ledger already. */
  ghost predicate BilledAt(m: Db, it: Item, v: User, p: nat, now: int, live: Option<nat>)
    requires it in m.subs
  {
    var (d, o) := Charge(m, it, now, live);
    var n := if m.subs[it].next.Some? then m.subs[it].next.value else 0;
    var key := Renewal(it, Day(n));
    && (o == SuspendedNow <==> !Affords(m, v, p))
    && (o == Charged <==> Affords(m, v, p) && KeyFree(m, key))
    && (o == Charged ==> Posted(m.books, d.books, v, -(p as int), Some(key)))
    && (o != Charged ==> d.books == m.books)
  }

  /** Once a price is locked in, then after any run of steps that do not write it, timely or not, every charge
      of the item takes that price, whatever the catalog has become. */
  lemma LockedPriceBilled(db: Db, es: seq<Event>, it: Item, p: nat, v: User, now: int, live: Option<nat>)
    requires it in db.subs && db.subs[it].price == Some(p)
    requires forall i :: 0 <= i < |es| ==> !Reprices(es[i], it)
    requires Billable(Run(db, es), it, v) && v in Run(db, es).books.wallets
    ensures BilledAt(Run(db, es), it, v, p, now, live)
  {
    var m := Run(db, es);
    PriceKept(db, es, it);
    var n := if m.subs[it].next.Some? then m.subs[it].next.value else 0;
    ChargeTakes(m, it, v, n, p, now, live);
  }

  /** The item that an event sells, and for how much. */
  ghost predicate Sells(e: Event, it: Item, price: nat) {
    match e
    case DoBuyTunnel(_, t, _, pr, _) => it == Tunnel(t) && pr == price
    case DoChangeTier(_, t, _, pr, _) => it == Tunnel(t) && pr == price
    case DoBuyIp(_, _, a, pr, _) => it == Ip(a) && pr == price
    case DoGrantIp(_, _, a, pr, _) => it == Ip(a) && pr == price
    case DoBuyBlock(_, b, _, _, _, pr, _) => it == Block(b) && pr == price
    case DoGrantBlock(_, b, _, _, _, pr, _) => it == Block(b) && pr == price
    case _ => false
  }

  lemma SaleLocks(db: Db, e: Event, d: Db, it: Item, price: nat)
    requires Sells(e, it, price) && Do(db, e) == Done(d) && d != db
    ensures it in d.subs && d.subs[it].price == Some(price)
  {
    match e
    case DoBuyTunnel(u, t, tier, _, at) => BuyTunnelDoes(db, u, t, tier, price, at);
    case DoChangeTier(u, t, tier, _, at) => ChangeTierDoes(db, u, t, tier, price, at);
    case DoBuyIp(u, p, a, _, at) => BuyIpDoes(db, u, p, a, price, at);
    case DoGrantIp(u, p, a, _, at) => GrantIpDoes(db, u, p, a, price, at);
    case DoBuyBlock(u, b, p, net, size, _, at) => BuyBlockDoes(db, u, b, p, net, size, price, at, d);
    case DoGrantBlock(u, b, p, net, size, _, at) => GrantBlockDoes(db, u, b, p, net, size, price, at, d);
  }

  /** So what an item was sold for, or a tunnel's tier changed for, is what its renewals take: until it is
      re-priced, every later charge bills it at exactly that price. */
  lemma SoldPriceBilled(db: Db, e: Event, d: Db, it: Item, price: nat, es: seq<Event>, v: User, now: int,
                        live: Option<nat>)
    requires Sells(e, it, price) && Do(db, e) == Done(d) && d != db
    requires forall i :: 0 <= i < |es| ==> !Reprices(es[i], it)
    requires Billable(Run(d, es), it, v) && v in Run(d, es).books.wallets
    ensures BilledAt(Run(d, es), it, v, price, now, live)
  {
    SaleLocks(db, e, d, it, price);
    LockedPriceBilled(d, es, it, price, v, now, live);
  }

  lemma NextKeyFree(m: Db, clock: int, it: Item, n: int)
    requires KeysBehind(m, clock) && it in m.subs && m.subs[it].next == Some(n)
    ensures KeyFree(m, Renewal(it, Day(n)))
  {
    assert Used(m.books, Renewal(it, Day(n))) ==> Behind(m, clock, it, Day(n));
  }

  /** The charge posts exactly this price and moves the billing date by one cycle. */
  ghost predicate RenewsAt(m: Db, it: Item, v: User, p: nat, now: int, live: Option<nat>)
    requires it in m.subs && m.subs[it].next.Some?
  {
    var (d, o) := Charge(m, it, now, live);
    var n := m.subs[it].next.value;
    && o == Charged && Posted(m.books, d.books, v, -(p as int), Some(Renewal(it, Day(n))))
    && it in d.subs && d.subs[it].next == Some(n + CYCLE) && d.subs[it].price == m.subs[it].price
  }

  lemma DueRenews(m: Db, clock: int, it: Item, p: nat, v: User, now: int, live: Option<nat>)
    requires it in m.subs && m.subs[it].price == Some(p) && m.subs[it].next.Some?
    requires KeysBehind(m, clock) && Billable(m, it, v) && Affords(m, v, p)
    ensures RenewsAt(m, it, v, p, now, live)
  {
    NextKeyFree(m, clock, it, m.subs[it].next.value);
    ChargeTakes(m, it, v, m.subs[it].next.value, p, now, live);
  }

  /** A timely charge at a locked price that the owner can pay goes through: it posts exactly that price and
      moves the billing date by one cycle. */
  lemma TimelyRenewalPosts(db: Db, clock: int, es: seq<Event>, it: Item, p: nat, v: User, now: int, live: Option<nat>)
    requires it in db.subs && db.subs[it].price == Some(p)
    requires forall i :: 0 <= i < |es| ==> !Reprices(es[i], it)
    requires KeysBehind(db, clock) && TimelyRun(db, es) && Monotone(clock, es)
    requires Due(Run(db, es), it, now) && Billable(Run(db, es), it, v) && Affords(Run(db, es), v, p)
    ensures RenewsAt(Run(db, es), it, v, p, now, live)
  {
    PriceKept(db, es, it);
    RunBehind(db, clock, es);
    DueRenews(Run(db, es), Clock(clock, es), it, p, v, now, live);
  }
}

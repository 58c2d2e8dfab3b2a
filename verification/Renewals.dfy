/** Renewals over time: every cycle is paid once, grace is three days, and catching up ends. */
module Renewals {
  import opened Common
  import opened Ledger
  import opened Tables
  import opened Placement
  import opened Runs

  function At(e: Event): Option<int> {
    match e
    case DoCharge(_, at, _) => Some(at)
    case DoCancel(_, at) => Some(at)
    case DoBuyTunnel(_, _, _, _, at) => Some(at)
    case DoChangeTier(_, _, _, _, at) => Some(at)
    case DoBuyIp(_, _, _, _, at) => Some(at)
    case DoGrantIp(_, _, _, _, at) => Some(at)
    case DoBuyBlock(_, _, _, _, _, _, at) => Some(at)
    case DoGrantBlock(_, _, _, _, _, _, at) => Some(at)
    case _ => None
  }

  function Tock(clock: int, e: Event): int {
    if At(e).Some? then At(e).value else clock
  }

  function Clock(start: int, es: seq<Event>): int
    decreases |es|
  {
    if es == [] then start else Tock(Clock(start, es[..|es| - 1]), es[|es| - 1])
  }

  /** The clock never goes back. */
  ghost predicate Monotone(start: int, es: seq<Event>) {
    forall i :: 0 <= i < |es| ==> Clock(start, es[..i]) <= Tock(Clock(start, es[..i]), es[i])
  }

  // ----- renewal keys stay behind the next billing date -----

  ghost predicate Behind(db: Db, clock: int, it: Item, day: int) {
    day <= Day(clock) && (it in db.subs && db.subs[it].next.Some? ==> day < Day(db.subs[it].next.value))
  }

  /** Every recorded renewal key has a day that is past, and strictly before the item's next
      billing day. */
  ghost predicate KeysBehind(db: Db, clock: int) {
    forall it, day :: Used(db.books, Renewal(it, day)) ==> Behind(db, clock, it, day)
  }

  lemma DayAdd(t: int)
    ensures Day(t + CYCLE) == Day(t) + 31
  {
  }

  lemma DayMonotone(s: int, t: int)
    requires s <= t
    ensures Day(s) <= Day(t)
  {
  }

  /** A step that records no renewal and moves next dates only to a fresh cycle keeps the keys behind. */
  lemma BehindKept(db: Db, d: Db, clock: int, now: int)
    requires KeysBehind(db, clock) && clock <= now
    requires forall it, day :: Used(d.books, Renewal(it, day)) ==> Used(db.books, Renewal(it, day))
    requires forall it :: it in d.subs && d.subs[it].next.Some? ==>
               d.subs[it].next == Some(now + CYCLE) || (it in db.subs && d.subs[it].next == db.subs[it].next)
    ensures KeysBehind(d, now)
  {
    DayAdd(now);
    DayMonotone(clock, now);
    forall it, day | Used(d.books, Renewal(it, day)) ensures Behind(d, now, it, day) {
      assert Behind(db, clock, it, day);
    }
  }

  lemma ChargeBehind(db: Db, clock: int, it: Item, now: int, live: Option<nat>)
    requires KeysBehind(db, clock) && clock <= now
    requires Charge(db, it, now, live).1 == Charged && db.subs[it].next.Some? && Day(CycleOf(db.subs[it])) <= Day(now)
    ensures KeysBehind(Charge(db, it, now, live).0, now)
  {
    var s, d := db.subs[it], Charge(db, it, now, live).0;
    var key := Renewal(it, Day(CycleOf(s)));
    DayAdd(CycleOf(s));
    DayMonotone(clock, now);
    forall i, day | Used(d.books, Renewal(i, day)) ensures Behind(d, now, i, day) {
      PostUses(db.books, s.owner.value, -(PriceOf(s, live).value as int), Some(key), Renewal(i, day));
      if Renewal(i, day) != key {
        assert Behind(db, clock, i, day);
      }
    }
  }

  /** Exactly when a successful charge keeps the keys behind: the cycle it paid for has begun.  The
      row lock does not re-check this, which is why overlapping ticks are excluded. */
  lemma ChargeBehindIff(db: Db, clock: int, it: Item, now: int, live: Option<nat>)
    requires KeysBehind(db, clock) && clock <= now && Charge(db, it, now, live).1 == Charged && db.subs[it].next.Some?
    ensures KeysBehind(Charge(db, it, now, live).0, now) <==> Day(db.subs[it].next.value) <= Day(now)
  {
    var s, d := db.subs[it], Charge(db, it, now, live).0;
    var key := Renewal(it, Day(CycleOf(s)));
    if Day(CycleOf(s)) <= Day(now) {
      ChargeBehind(db, clock, it, now, live);
    } else {
      PostUses(db.books, s.owner.value, -(PriceOf(s, live).value as int), Some(key), key);
      assert Used(d.books, key) && !Behind(d, now, it, Day(CycleOf(s)));
    }
  }

  lemma OtherPost(db: Db, d: Db, user: User, amount: int, key: Option<IdemKey>)
    requires user in db.books.wallets && d.books == Post(db.books, user, amount, key)
    requires key.Some? ==> !key.value.Renewal?
    ensures forall it, day :: Used(d.books, Renewal(it, day)) ==> Used(db.books, Renewal(it, day))
  {
    forall it, day | Used(d.books, Renewal(it, day)) ensures Used(db.books, Renewal(it, day)) {
      PostUses(db.books, user, amount, key, Renewal(it, day));
    }
  }

  lemma DebitRenewals(db: Db, user: User, price: nat, key: IdemKey)
    requires Debit(db, user, price, key).Done? && !key.Renewal?
    ensures forall it, day :: Used(Debit(db, user, price, key).db.books, Renewal(it, day)) ==>
              Used(db.books, Renewal(it, day))
  {
    OtherPost(db, Debit(db, user, price, key).db, user, -(price as int), Some(key));
  }

  lemma TierRenewals(db: Db, user: User, t: nat, tier: nat, price: nat, now: int)
    requires ChangeTier(db, user, t, tier, price, now).Done?
    ensures forall it, day :: Used(ChangeTier(db, user, t, tier, price, now).db.books, Renewal(it, day)) ==>
              Used(db.books, Renewal(it, day))
  {
    var d := ChangeTier(db, user, t, tier, price, now).db;
    if d.books != db.books {
      OtherPost(db, d, user, -(price as int), Some(TierChange(t, db.tiers[t], tier, now / 1000)));
    }
  }

  lemma CreditRenewals(db: Db, e: Event)
    requires e.DoAdjust? || e.DoRedeem? || e.DoOpen?
    ensures forall it, day :: Used(Step(db, e).books, Renewal(it, day)) ==> Used(db.books, Renewal(it, day))
  {
    if Do(db, e).Done? {
      match e
      case DoAdjust(user, amount) => OtherPost(db, Step(db, e), user, amount, None);
      case DoRedeem(user, code, value) => OtherPost(db, Step(db, e), user, value, Some(Redemption(code, user)));
      case DoOpen(_) => assert Step(db, e).books.rows == db.books.rows;
    }
  }

  /** Only a charge records a renewal. */
  lemma StepRenewals(db: Db, e: Event)
    requires !e.DoCharge?
    ensures forall it, day :: Used(Step(db, e).books, Renewal(it, day)) ==> Used(db.books, Renewal(it, day))
  {
    if Do(db, e).Done? && Step(db, e).books != db.books {
      match e
      case DoBuyTunnel(user, t, _, price, at) => DebitRenewals(db, user, price, Purchase(Tunnel(t), at));
      case DoBuyIp(user, _, a, price, at) => DebitRenewals(db, user, price, Purchase(Ip(a), at));
      case DoBuyBlock(user, b, _, _, _, price, at) => DebitRenewals(db, user, price, Purchase(Block(b), at));
      case DoChangeTier(user, t, tier, price, at) => TierRenewals(db, user, t, tier, price, at);
      case DoAdjust(_, _) => CreditRenewals(db, e);
      case DoRedeem(_, _, _) => CreditRenewals(db, e);
      case DoOpen(_) => CreditRenewals(db, e);
      case _ =>
    }
  }

  lemma OverlayNext(subs: map<Item, Sub>, ms: map<Item, Sub>, blk: Item, s: Sub, it: Item)
    requires forall i :: i in ms ==> ms[i].next.None?
    ensures var d := (subs + ms)[blk := s];
            it in d && d[it].next.Some? ==> d[it].next == s.next || (it in subs && d[it].next == subs[it].next)
  {
  }

  lemma ClaimBlockNext(db: Db, user: User, b: nat, p: nat, net: nat, size: nat, price: nat, now: int, it: Item)
    requires p in db.pools && it in ClaimBlock(db, user, b, p, net, size, price, now).subs
    requires ClaimBlock(db, user, b, p, net, size, price, now).subs[it].next.Some?
    ensures NextOk(db, ClaimBlock(db, user, b, p, net, size, price, now), Some(now), it)
  {
    OverlayNext(db.subs, MemberSubs(db, user, net, size), Block(b),
                Sub(Some(user), Current, Some(price), Some(now + CYCLE), None, None), it);
  }

  lemma CancelNext(db: Db, c: Item, it: Item)
    requires it in Cancel(db, c).subs && Cancel(db, c).subs[it].next.Some?
    ensures it in db.subs && Cancel(db, c).subs[it].next == db.subs[it].next
  {
  }

  lemma ReleaseBlockNext(db: Db, user: User, b: nat, it: Item)
    requires ReleaseBlock(db, user, b).Done? && it in ReleaseBlock(db, user, b).db.subs
    requires ReleaseBlock(db, user, b).db.subs[it].next.Some?
    ensures it in db.subs && ReleaseBlock(db, user, b).db.subs[it].next == db.subs[it].next
  {
  }

  lemma BuyNext(db: Db, e: Event, it: Item)
    requires (e.DoBuyIp? || e.DoGrantIp? || e.DoBuyTunnel? || e.DoChangeTier?) && it in Step(db, e).subs
    ensures var n := Step(db, e).subs[it].next; n == Some(e.at + CYCLE) || (it in db.subs && n == db.subs[it].next)
  {
  }

  lemma BuyBlockIs(db: Db, user: User, b: nat, p: nat, net: nat, size: nat, price: nat, now: int)
    requires BuyBlock(db, user, b, p, net, size, price, now).Done?
    ensures Debit(db, user, price, Purchase(Block(b), now)).Done?
    ensures var d := Debit(db, user, price, Purchase(Block(b), now)).db;
            p in d.pools && d.subs == db.subs &&
            BuyBlock(db, user, b, p, net, size, price, now).db == ClaimBlock(d, user, b, p, net, size, price, now)
  {
  }

  lemma GrantBlockIs(db: Db, user: User, b: nat, p: nat, net: nat, size: nat, price: nat, now: int)
    requires GrantBlock(db, user, b, p, net, size, price, now).Done?
    ensures p in db.pools
    ensures GrantBlock(db, user, b, p, net, size, price, now).db == ClaimBlock(db, user, b, p, net, size, price, now)
  {
  }

  lemma BuyBlockNext(db: Db, d: Db, e: Event, it: Item)
    requires (e.DoBuyBlock? || e.DoGrantBlock?) && Do(db, e) == Done(d) && it in d.subs && d.subs[it].next.Some?
    ensures NextOk(db, d, Some(e.at), it)
  {
    if e.DoBuyBlock? {
      BuyBlockIs(db, e.user, e.b, e.p, e.net, e.size, e.price, e.at);
      ClaimBlockNext(Debit(db, e.user, e.price, Purchase(Block(e.b), e.at)).db, e.user, e.b, e.p, e.net, e.size,
                     e.price, e.at, it);
    } else {
      GrantBlockIs(db, e.user, e.b, e.p, e.net, e.size, e.price, e.at);
      ClaimBlockNext(db, e.user, e.b, e.p, e.net, e.size, e.price, e.at, it);
    }
  }

  ghost predicate NextOk(db: Db, d: Db, now: Option<int>, it: Item)
    requires it in d.subs
  {
    (now.Some? && d.subs[it].next == Some(now.value + CYCLE)) || (it in db.subs && d.subs[it].next == db.subs[it].next)
  }

  lemma SmallStepNext(db: Db, e: Event, it: Item)
    requires !e.DoCharge? && !e.DoCancel? && !e.DoBuyBlock? && !e.DoGrantBlock? && !e.DoReleaseBlock?
    requires !e.DoBuyIp? && !e.DoGrantIp? && !e.DoBuyTunnel? && !e.DoChangeTier?
    requires it in Step(db, e).subs && Step(db, e).subs[it].next.Some?
    ensures NextOk(db, Step(db, e), At(e), it)
  {
  }

  /** Next dates are only cleared, kept, or set to a full cycle from now. */
  lemma StepNext(db: Db, e: Event, it: Item)
    requires !e.DoCharge? && it in Step(db, e).subs && Step(db, e).subs[it].next.Some?
    ensures NextOk(db, Step(db, e), At(e), it)
  {
    if Do(db, e).Done? {
      match e
      case DoBuyBlock(user, b, p, net, size, price, at) =>
        BuyBlockNext(db, BuyBlock(db, user, b, p, net, size, price, at).db, e, it);
      case DoGrantBlock(user, b, p, net, size, price, at) =>
        BuyBlockNext(db, GrantBlock(db, user, b, p, net, size, price, at).db, e, it);
      case DoCancel(c, _) => CancelNext(db, c, it);
      case DoReleaseBlock(user, b) => ReleaseBlockNext(db, user, b, it);
      case DoBuyIp(_, _, _, _, _) => BuyNext(db, e, it);
      case DoGrantIp(_, _, _, _, _) => BuyNext(db, e, it);
      case DoBuyTunnel(_, _, _, _, _) => BuyNext(db, e, it);
      case DoChangeTier(_, _, _, _, _) => BuyNext(db, e, it);
      case _ => SmallStepNext(db, e, it);
    }
  }

  lemma ChargeStepBehind(db: Db, clock: int, it: Item, now: int, live: Option<nat>)
    requires KeysBehind(db, clock) && clock <= now && Due(db, it, now)
    ensures KeysBehind(Charge(db, it, now, live).0, now)
  {
    var (d, o) := Charge(db, it, now, live);
    if o == Charged {
      DayMonotone(CycleOf(db.subs[it]), now);
      ChargeBehind(db, clock, it, now, live);
    } else {
      BehindKept(db, d, clock, now);
    }
  }

  lemma OtherStepBehind(db: Db, d: Db, clock: int, at: Option<int>)
    requires KeysBehind(db, clock) && (at.Some? ==> clock <= at.value)
    requires forall it, day :: Used(d.books, Renewal(it, day)) ==> Used(db.books, Renewal(it, day))
    requires forall it :: it in d.subs && d.subs[it].next.Some? ==> NextOk(db, d, at, it)
    ensures KeysBehind(d, if at.Some? then at.value else clock)
  {
    BehindKept(db, d, clock, if at.Some? then at.value else clock);
  }

  lemma StepBehind(db: Db, clock: int, e: Event)
    requires KeysBehind(db, clock) && clock <= Tock(clock, e) && Timely(db, e)
    ensures KeysBehind(Step(db, e), Tock(clock, e))
  {
    if e.DoCharge? {
      ChargeStepBehind(db, clock, e.it, e.at, e.live);
    } else {
      StepRenewals(db, e);
      forall it | it in Step(db, e).subs && Step(db, e).subs[it].next.Some? ensures NextOk(db, Step(db, e), At(e), it) {
        StepNext(db, e, it);
      }
      OtherStepBehind(db, Step(db, e), clock, At(e));
    }
  }

  lemma {:induction false} RunBehind(db: Db, start: int, es: seq<Event>)
    requires KeysBehind(db, start) && TimelyRun(db, es) && Monotone(start, es)
    ensures KeysBehind(Run(db, es), Clock(start, es))
    decreases |es|
  {
    if es != [] {
      var n := |es| - 1;
      PrefixOk(db, start, es, n);
      assert Timely(Run(db, es[..n]), es[n]);
      RunBehind(db, start, es[..n]);
      StepBehind(Run(db, es[..n]), Clock(start, es[..n]), es[n]);
    }
  }

  /** What a charge does to an item whose keys are behind: it is never skipped as "already charged". */
  lemma ChargeNeverSkips(db: Db, clock: int, it: Item, now: int, live: Option<nat>)
    requires KeysBehind(db, clock) && Due(db, it, now) && Chargeable(db, it)
    requires PriceOf(db.subs[it], live).Some? && db.subs[it].owner.value in db.books.wallets
    ensures var s := db.subs[it]; var p := PriceOf(s, live).value; var (d, o) := Charge(db, it, now, live);
            && !Used(db.books, Renewal(it, Day(s.next.value)))
            && (CanPay(db, s.owner.value, p) ==>
                  o == Charged && d.subs[it].next == Some(s.next.value + CYCLE) &&
                  d.books.rows == db.books.rows +
                    [Row(s.owner.value, -(p as int), db.books.wallets[s.owner.value].balance - p,
                         Some(Renewal(it, Day(s.next.value))))])
            && (!CanPay(db, s.owner.value, p) ==> o == SuspendedNow && d.books == db.books)
  {
    var s := db.subs[it];
    var day := Day(s.next.value);
    assert Used(db.books, Renewal(it, day)) ==> Behind(db, clock, it, day);
  }

  /** The item can be charged for right now: it has a price and its owner has the money. */
  ghost predicate Payable(db: Db, it: Item, live: Option<nat>) {
    Chargeable(db, it) && PriceOf(db.subs[it], live).Some? &&
    CanPay(db, db.subs[it].owner.value, PriceOf(db.subs[it], live).value)
  }

  /** The charge goes through and pays the cycle that starts at the item's next billing date, under a
      key that was free before and is taken afterwards. */
  ghost predicate PaysCycle(db: Db, it: Item, now: int, live: Option<nat>) {
    && it in db.subs && Due(db, it, now)
    && var key := Renewal(it, Day(db.subs[it].next.value)); var (d, o) := Charge(db, it, now, live);
       o == Charged && !Used(db.books, key) && Used(d.books, key) && it in d.subs &&
       d.subs[it].next == Some(db.subs[it].next.value + CYCLE)
  }

  lemma DuePays(db: Db, clock: int, it: Item, now: int, live: Option<nat>)
    requires KeysBehind(db, clock) && Due(db, it, now) && Payable(db, it, live)
    ensures PaysCycle(db, it, now, live)
  {
    ChargeNeverSkips(db, clock, it, now, live);
    var s := db.subs[it];
    var key := Renewal(it, Day(s.next.value));
    PostUses(db.books, s.owner.value, -(PriceOf(s, live).value as int), Some(key), key);
  }

  /** Renewal exactly once: in every run of timely charges under a monotone clock, mixed with
      purchases, releases, re-purchases and tier changes, a due item that can be paid for is paid for
      exactly that cycle, and no renewal key ever occurs twice in the ledger. */
  lemma RenewalExactlyOnce(db: Db, start: int, es: seq<Event>, i: nat)
    requires KeysBehind(db, start) && TimelyRun(db, es) && Monotone(start, es) && Balanced(db.books)
    requires i < |es| && es[i].DoCharge? && Payable(Run(db, es[..i]), es[i].it, es[i].live)
    ensures PaysCycle(Run(db, es[..i]), es[i].it, es[i].at, es[i].live)
    ensures KeysUnique(Run(db, es).books.rows)
  {
    assert Timely(Run(db, es[..i]), es[i]);
    PrefixOk(db, start, es, i);
    RunBehind(db, start, es[..i]);
    DuePays(Run(db, es[..i]), Clock(start, es[..i]), es[i].it, es[i].at, es[i].live);
    LedgerConserved(db, es);
  }

  lemma PrefixOk(db: Db, start: int, es: seq<Event>, i: nat)
    requires i <= |es|
    ensures TimelyRun(db, es) ==> TimelyRun(db, es[..i])
    ensures CarefulRun(db, es) ==> CarefulRun(db, es[..i])
    ensures Monotone(start, es) ==> Monotone(start, es[..i])
  {
    assert forall j :: 0 <= j < i ==> es[..i][..j] == es[..j] && es[..i][j] == es[j];
  }

  // ----- why the charge must be timely -----

  /** The renewal key of the tunnel's current cycle is already taken. */
  ghost predicate Starved(db: Db, t: nat) {
    && Tunnel(t) in db.subs && db.subs[Tunnel(t)].next.Some?
    && Used(db.books, Renewal(Tunnel(t), Day(db.subs[Tunnel(t)].next.value)))
  }

  /** No renewal of the tunnel has been recorded in between. */
  ghost predicate NoRenewal(db: Db, d: Db, t: nat) {
    forall day :: Used(d.books, Renewal(Tunnel(t), day)) ==> Used(db.books, Renewal(Tunnel(t), day))
  }

  lemma StarvedOwnCharge(db: Db, t: nat, now: int, live: Option<nat>)
    requires Starved(db, t)
    ensures Starved(Charge(db, Tunnel(t), now, live).0, t) && Charge(db, Tunnel(t), now, live).0.books == db.books
  {
  }

  lemma StarvedCharge(db: Db, it: Item, now: int, live: Option<nat>, t: nat)
    requires Starved(db, t)
    ensures var d := Charge(db, it, now, live).0; Starved(d, t) && NoRenewal(db, d, t)
  {
    var (d, o) := Charge(db, it, now, live);
    if it == Tunnel(t) {
      StarvedOwnCharge(db, t, now, live);
    } else if o == Charged {
      var s := db.subs[it];
      forall day ensures Used(d.books, Renewal(Tunnel(t), day)) <==> Used(db.books, Renewal(Tunnel(t), day)) {
        PostUses(db.books, s.owner.value, -(PriceOf(s, live).value as int), Some(Renewal(it, Day(CycleOf(s)))),
                 Renewal(Tunnel(t), day));
      }
    }
  }

  /** The ledger only grows. */
  ghost predicate Appends(db: Db, d: Db) {
    |db.books.rows| <= |d.books.rows| && d.books.rows[..|db.books.rows|] == db.books.rows
  }

  lemma AppendsUsed(db: Db, d: Db, key: IdemKey)
    requires Appends(db, d) && Used(db.books, key)
    ensures Used(d.books, key)
  {
    var i :| 0 <= i < |db.books.rows| && db.books.rows[i].key == Some(key);
    assert d.books.rows[..|db.books.rows|][i] == d.books.rows[i];
  }

  lemma DebitAppends(db: Db, user: User, price: nat, key: IdemKey)
    requires Debit(db, user, price, key).Done?
    ensures Appends(db, Debit(db, user, price, key).db)
  {
  }

  lemma StepAppends(db: Db, e: Event)
    requires !e.DoCharge?
    ensures Appends(db, Step(db, e))
  {
    if Do(db, e).Done? && Step(db, e).books != db.books {
      match e
      case DoBuyTunnel(user, t, _, price, at) => DebitAppends(db, user, price, Purchase(Tunnel(t), at));
      case DoBuyIp(user, _, a, price, at) => DebitAppends(db, user, price, Purchase(Ip(a), at));
      case DoBuyBlock(user, b, _, _, _, price, at) => DebitAppends(db, user, price, Purchase(Block(b), at));
      case _ =>
    }
  }

  lemma CancelTunnelNext(db: Db, c: Item, t: nat)
    requires Tunnel(t) in db.subs
    ensures Tunnel(t) in Cancel(db, c).subs && Cancel(db, c).subs[Tunnel(t)].next == db.subs[Tunnel(t)].next
  {
  }

  /** Apart from charges and its own tier changes, nothing moves a tunnel's billing date. */
  lemma StepTunnelNext(db: Db, e: Event, t: nat)
    requires Tunnel(t) in db.subs && !e.DoCharge? && !(e.DoChangeTier? && e.t == t)
    ensures Tunnel(t) in Step(db, e).subs && Step(db, e).subs[Tunnel(t)].next == db.subs[Tunnel(t)].next
  {
    if e.DoCancel? { CancelTunnelNext(db, e.it, t); }
  }

  lemma StarvedStep(db: Db, e: Event, t: nat)
    requires Starved(db, t) && !(e.DoChangeTier? && e.t == t)
    ensures Starved(Step(db, e), t) && NoRenewal(db, Step(db, e), t)
  {
    if e.DoCharge? {
      StarvedCharge(db, e.it, e.at, e.live, t);
    } else {
      StepTunnelNext(db, e, t);
      StepRenewals(db, e);
      StepAppends(db, e);
      AppendsUsed(db, Step(db, e), Renewal(Tunnel(t), Day(db.subs[Tunnel(t)].next.value)));
    }
  }

  lemma StarvedOn(db: Db, m: Db, e: Event, t: nat, d: Db)
    requires Starved(m, t) && NoRenewal(db, m, t) && !(e.DoChangeTier? && e.t == t) && d == Step(m, e)
    ensures Starved(d, t) && NoRenewal(db, d, t)
  {
    StarvedStep(m, e, t);
  }

  /** Once the key of its current cycle is taken, a tunnel is never billed again: over every run without
      a tier change of it, timely or not, no further renewal of it is recorded. */
  lemma {:induction false} StarvedForever(db: Db, es: seq<Event>, t: nat)
    requires Starved(db, t) && forall i :: 0 <= i < |es| ==> !(es[i].DoChangeTier? && es[i].t == t)
    ensures Starved(Run(db, es), t) && NoRenewal(db, Run(db, es), t)
    decreases |es|
  {
    if es != [] {
      var n := |es| - 1;
      StarvedForever(db, es[..n], t);
      StarvedOn(db, Run(db, es[..n]), es[n], t, Run(db, es));
    }
  }

  /** Two overlapping ticks that both selected the same tunnel, followed by a tier change on the same
      day, lead there: the second charge pays a cycle that has not begun. */
  lemma OverlapStarves(db: Db, user: User, t: nat, tier: nat, price: nat, now: int, live: Option<nat>)
    requires var it := Tunnel(t);
             var d1 := Charge(db, it, now, live); var d2 := Charge(d1.0, it, now, live);
             it in db.subs && db.subs[it].next == Some(now) && d1.1 == Charged && d2.1 == Charged &&
             ChangeTier(d2.0, user, t, tier, price, now).Done? && t in d2.0.tiers &&
             !Used(d2.0.books, TierChange(t, d2.0.tiers[t], tier, now / 1000))
    ensures var it := Tunnel(t);
            var d1 := Charge(db, it, now, live).0; var d2 := Charge(d1, it, now, live).0;
            var d3 := ChangeTier(d2, user, t, tier, price, now).db;
            !Due(d1, it, now) && d3.subs[it].next == Some(now + CYCLE) && Starved(d3, t)
  {
    var it := Tunnel(t);
    var d1 := Charge(db, it, now, live).0;
    var d2 := Charge(d1, it, now, live).0;
    var key := Renewal(it, Day(now + CYCLE));
    var s := d1.subs[it];
    PostUses(d1.books, s.owner.value, -(PriceOf(s, live).value as int), Some(key), key);
    PostUses(d2.books, user, -(price as int), Some(TierChange(t, d2.tiers[t], tier, now / 1000)), key);
  }

  // ----- catching up -----

  /** The number of cycles that have begun and are not paid. */
  function Overdue(next: int, now: int): nat {
    if next > now then 0 else (now - next) / CYCLE + 1
  }

  lemma OverdueStep(next: int, now: int)
    requires next <= now
    ensures Overdue(next + CYCLE, now) == Overdue(next, now) - 1
  {
  }
}

/** Catching up: consecutive billing ticks at one instant, with all the items of an owner drawing on the
    same wallet. */
module CatchUp {
  import opened Common
  import opened Sums
  import opened Ledger
  import opened Tables
  import opened Runs
  import opened Renewals
  import opened Scheduler

  /** A tick charges the item to this owner: it is due, the owner's, and has a price. */
  ghost predicate Bills(db: Db, it: Item, u: User, now: int, live: Catalog) {
    Due(db, it, now) && db.subs[it].owner == Some(u) && (db.subs[it].price.Some? || live(it).Some?)
  }

  /** The price locked in the row, and the catalog's only for a row without one. */
  ghost function PriceAt(db: Db, it: Item, live: Catalog): nat {
    if it in db.subs && db.subs[it].price.Some? then db.subs[it].price.value
    else if it in db.subs && live(it).Some? then live(it).value else 0
  }

  ghost function OverdueAt(db: Db, it: Item, now: int): nat {
    if it in db.subs && db.subs[it].next.Some? then Overdue(db.subs[it].next.value, now) else 0
  }

  ghost function Times(n: nat, p: nat): nat {
    n * p
  }

  /** What one tick charges the owner, item by item. */
  ghost function Prices(db: Db, u: User, now: int, live: Catalog): map<Item, int> {
    map it | it in db.subs && Bills(db, it, u, now, live) :: PriceAt(db, it, live)
  }

  /** What the owner owes for all overdue cycles, item by item. */
  ghost function Owed(db: Db, u: User, now: int, live: Catalog): map<Item, int> {
    map it | it in db.subs && Bills(db, it, u, now, live) :: Times(OverdueAt(db, it, now), PriceAt(db, it, live))
  }

  /** What remains of it after every item has paid one cycle. */
  ghost function Rest(db: Db, u: User, now: int, live: Catalog): map<Item, int> {
    map it | it in db.subs && Bills(db, it, u, now, live) && OverdueAt(db, it, now) > 1 ::
      Times(OverdueAt(db, it, now) - 1, PriceAt(db, it, live))
  }

  lemma TimesStep(n: nat, p: nat)
    requires n >= 1
    ensures Times(n, p) == p + Times(n - 1, p) && Times(0, p) == 0
  {
  }

  lemma DueOverdue(db: Db, it: Item, now: int)
    requires Due(db, it, now)
    ensures OverdueAt(db, it, now) >= 1
  {
  }

  lemma OwedSplits(db: Db, u: User, now: int, live: Catalog)
    ensures Total(Owed(db, u, now, live)) == Total(Prices(db, u, now, live)) + Total(Rest(db, u, now, live))
    ensures Total(Rest(db, u, now, live)) >= 0
  {
    var a, b, c := Owed(db, u, now, live), Prices(db, u, now, live), Rest(db, u, now, live);
    forall it | it in a ensures a[it] == b[it] + if it in c then c[it] else 0 {
      DueOverdue(db, it, now);
      TimesStep(OverdueAt(db, it, now), PriceAt(db, it, live));
    }
    TotalSplit(a, b, c);
    TotalNonNegative(c);
  }

  // ----- the charges of one tick -----

  ghost function Charge1(db: Db, it: Item, u: User, now: int, live: Catalog): nat {
    if Bills(db, it, u, now, live) then PriceAt(db, it, live) else 0
  }

  /** What these items cost the owner in one tick. */
  ghost function PaidBy(db: Db, xs: seq<Item>, u: User, now: int, live: Catalog): nat
    decreases |xs|
  {
    if xs == [] then 0 else
    PaidBy(db, xs[..|xs| - 1], u, now, live) + Charge1(db, xs[|xs| - 1], u, now, live)
  }

  function Renewed(s: Sub): Sub {
    s.(next := Some(CycleOf(s) + CYCLE), status := Current, suspendedAt := None, deleteAfter := None)
  }

  /** The rows after some items have been charged. */
  ghost predicate MidRows(db: Db, m: Db, done: seq<Item>, u: User, now: int, live: Catalog) {
    && m.seats == db.seats && m.subs.Keys == db.subs.Keys
    && (forall it :: it in db.subs && it !in done ==> m.subs[it] == db.subs[it])
    && (forall it :: it in db.subs ==> m.subs[it].owner == db.subs[it].owner && m.subs[it].price == db.subs[it].price)
    && (forall it :: it in done && Bills(db, it, u, now, live) ==> m.subs[it] == Renewed(db.subs[it]))
  }

  ghost predicate MidMoney(db: Db, m: Db, done: seq<Item>, u: User, now: int, live: Catalog) {
    && u in db.books.wallets && u in m.books.wallets
    && m.books.wallets[u].balance == db.books.wallets[u].balance - PaidBy(db, done, u, now, live)
    && KeysBehind(m, now)
  }

  /** One charge changes only its own row, and only its owner's wallet. */
  ghost predicate OneCharge(m: Db, d: Db, it: Item) {
    && it in m.subs && it in d.subs && d.seats == m.seats && d.subs == m.subs[it := d.subs[it]]
    && d.subs[it].owner == m.subs[it].owner && d.subs[it].price == m.subs[it].price
    && (forall v :: v in m.books.wallets ==> v in d.books.wallets)
    && (forall v :: v in m.books.wallets && m.subs[it].owner != Some(v) ==> d.books.wallets[v] == m.books.wallets[v])
  }

  lemma ChargeIsOne(m: Db, it: Item, now: int, live: Option<nat>)
    requires it in m.subs
    ensures OneCharge(m, Charge(m, it, now, live).0, it)
  {
  }

  /** A due item whose owner has the money is renewed for its price. */
  lemma ChargeRenews(m: Db, it: Item, u: User, now: int, live: Option<nat>)
    requires KeysBehind(m, now) && Due(m, it, now) && m.subs[it].owner == Some(u) && PriceOf(m.subs[it], live).Some?
    requires CanPay(m, u, PriceOf(m.subs[it], live).value)
    ensures var d := Charge(m, it, now, live).0;
            && d.subs[it] == Renewed(m.subs[it]) && u in d.books.wallets
            && d.books.wallets[u].balance == m.books.wallets[u].balance - PriceOf(m.subs[it], live).value
  {
    ChargeNeverSkips(m, now, it, now, live);
  }

  /** A charge that the owner is not billed for leaves the owner's balance alone. */
  lemma ChargeSpares(m: Db, it: Item, u: User, now: int, live: Option<nat>)
    requires it in m.subs && u in m.books.wallets && (m.subs[it].owner != Some(u) || PriceOf(m.subs[it], live).None?)
    ensures var d := Charge(m, it, now, live).0;
            u in d.books.wallets && d.books.wallets[u].balance == m.books.wallets[u].balance
  {
  }

  lemma MidRowsStep(db: Db, m: Db, d: Db, done: seq<Item>, it: Item, u: User, now: int, live: Catalog)
    requires MidRows(db, m, done, u, now, live) && it !in done && it in db.subs && OneCharge(m, d, it)
    requires Bills(db, it, u, now, live) ==> d.subs[it] == Renewed(m.subs[it])
    ensures MidRows(db, d, done + [it], u, now, live)
  {
  }

  lemma PaidSnoc(db: Db, done: seq<Item>, it: Item, u: User, now: int, live: Catalog)
    ensures PaidBy(db, done + [it], u, now, live) == PaidBy(db, done, u, now, live) + Charge1(db, it, u, now, live)
  {
    assert (done + [it])[..|done|] == done;
  }

  lemma MidStep(db: Db, m: Db, done: seq<Item>, it: Item, u: User, now: int, live: Catalog)
    requires MidRows(db, m, done, u, now, live) && MidMoney(db, m, done, u, now, live)
    requires it !in done && Due(db, it, now)
    requires db.books.wallets[u].balance >= PaidBy(db, done + [it], u, now, live)
    ensures var d := Charge(m, it, now, live(it)).0;
            MidRows(db, d, done + [it], u, now, live) && MidMoney(db, d, done + [it], u, now, live)
  {
    var d := Charge(m, it, now, live(it)).0;
    assert m.subs[it] == db.subs[it] && Due(m, it, now);
    PaidSnoc(db, done, it, u, now, live);
    ChargeIsOne(m, it, now, live(it));
    ChargeStepBehind(m, now, it, now, live(it));
    if Bills(db, it, u, now, live) {
      ChargeRenews(m, it, u, now, live(it));
    } else {
      ChargeSpares(m, it, u, now, live(it));
    }
    MidRowsStep(db, m, d, done, it, u, now, live);
  }

  lemma {:induction false} ChargesMid(db: Db, xs: seq<Item>, u: User, now: int, live: Catalog)
    requires Distinct(xs) && (forall x :: x in xs ==> Due(db, x, now)) && KeysBehind(db, now)
    requires u in db.books.wallets && db.books.wallets[u].balance >= PaidBy(db, xs, u, now, live)
    ensures var m := Charges(db, xs, now, live);
            MidRows(db, m, xs, u, now, live) && MidMoney(db, m, xs, u, now, live)
    decreases |xs|
  {
    if xs != [] {
      var n := |xs| - 1;
      DistinctInit(xs);
      assert xs == xs[..n] + [xs[n]];
      ChargesMid(db, xs[..n], u, now, live);
      MidStep(db, Charges(db, xs[..n], now, live), xs[..n], xs[n], u, now, live);
    }
  }

  ghost function PricesOver(db: Db, xs: seq<Item>, u: User, now: int, live: Catalog): map<Item, int> {
    map it | it in xs && Bills(db, it, u, now, live) :: PriceAt(db, it, live)
  }

  lemma PricesSnoc(db: Db, xs: seq<Item>, it: Item, u: User, now: int, live: Catalog)
    requires it !in xs
    ensures PricesOver(db, xs + [it], u, now, live) ==
            if Bills(db, it, u, now, live) then PricesOver(db, xs, u, now, live)[it := PriceAt(db, it, live)]
            else PricesOver(db, xs, u, now, live)
  {
    assert forall x :: x in xs + [it] <==> x in xs || x == it;
  }

  lemma TotalSnoc(db: Db, xs: seq<Item>, it: Item, u: User, now: int, live: Catalog)
    requires it !in xs
    ensures Total(PricesOver(db, xs + [it], u, now, live)) ==
            Total(PricesOver(db, xs, u, now, live)) + Charge1(db, it, u, now, live)
  {
    PricesSnoc(db, xs, it, u, now, live);
    TotalSet(PricesOver(db, xs, u, now, live), it, PriceAt(db, it, live));
  }

  lemma {:induction false} PaidIsTotal(db: Db, xs: seq<Item>, u: User, now: int, live: Catalog)
    requires Distinct(xs)
    ensures PaidBy(db, xs, u, now, live) == Total(PricesOver(db, xs, u, now, live))
    decreases |xs|
  {
    if xs == [] {
      TotalZero(PricesOver(db, xs, u, now, live));
    } else {
      var n := |xs| - 1;
      DistinctInit(xs);
      PaidIsTotal(db, xs[..n], u, now, live);
      assert xs == xs[..n] + [xs[n]];
      TotalSnoc(db, xs[..n], xs[n], u, now, live);
    }
  }

  lemma AllPaid(db: Db, xs: seq<Item>, u: User, now: int, live: Catalog)
    requires Distinct(xs) && forall it :: it in xs <==> Due(db, it, now)
    ensures PaidBy(db, xs, u, now, live) == Total(Prices(db, u, now, live))
  {
    PaidIsTotal(db, xs, u, now, live);
    assert PricesOver(db, xs, u, now, live) == Prices(db, u, now, live);
  }

  // ----- the cancellations of one tick -----

  /** An item with a billing row of its own: not an address inside a block. */
  ghost predicate OwnRow(db: Db, it: Item) {
    it.Ip? ==> it.addr in db.seats && db.seats[it.addr].block.None?
  }

  lemma CancelSpares(m: Db, y: Item, it: Item)
    requires it != y && it in m.subs && OwnRow(m, it)
    ensures var d := Cancel(m, y);
            it in d.subs && d.subs[it] == m.subs[it] && OwnRow(d, it) && d.books == m.books
  {
  }

  lemma {:induction false} CancelsSpare(m: Db, ys: seq<Item>, it: Item)
    requires it !in ys && it in m.subs && OwnRow(m, it)
    ensures var d := Cancels(m, ys);
            it in d.subs && d.subs[it] == m.subs[it] && OwnRow(d, it)
    decreases |ys|
  {
    if ys != [] {
      var n := |ys| - 1;
      assert ys == ys[..n] + [ys[n]];
      CancelsSpare(m, ys[..n], it);
      CancelSpares(Cancels(m, ys[..n]), ys[n], it);
    }
  }

  lemma CancelBooks(m: Db, y: Item)
    ensures Cancel(m, y).books == m.books
  {
  }

  lemma {:induction false} CancelsBooks(m: Db, ys: seq<Item>)
    ensures Cancels(m, ys).books == m.books
    decreases |ys|
  {
    if ys != [] {
      CancelsBooks(m, ys[..|ys| - 1]);
      CancelBooks(Cancels(m, ys[..|ys| - 1]), ys[|ys| - 1]);
    }
  }

  ghost predicate StillDue(m: Db, d: Db, it: Item, now: int) {
    Due(d, it, now) ==> Due(m, it, now) && d.subs[it] == m.subs[it]
  }

  lemma CancelTunnelDue(m: Db, t: nat, it: Item, now: int)
    ensures StillDue(m, CancelTunnel(m, t), it, now)
  {
  }

  lemma CancelIpDue(m: Db, a: nat, it: Item, now: int)
    ensures StillDue(m, CancelIp(m, a), it, now)
  {
  }

  lemma CancelBlockDue(m: Db, b: nat, it: Item, now: int)
    ensures StillDue(m, CancelBlock(m, b), it, now)
  {
  }

  /** A cancellation makes nothing due. */
  lemma CancelDue(m: Db, y: Item, it: Item, now: int)
    ensures StillDue(m, Cancel(m, y), it, now)
  {
    match y
    case Tunnel(t) => CancelTunnelDue(m, t, it, now);
    case Ip(a) => CancelIpDue(m, a, it, now);
    case Block(b) => CancelBlockDue(m, b, it, now);
  }

  lemma {:induction false} CancelsDue(m: Db, ys: seq<Item>, it: Item, now: int)
    ensures StillDue(m, Cancels(m, ys), it, now)
    decreases |ys|
  {
    if ys != [] {
      CancelsDue(m, ys[..|ys| - 1], it, now);
      CancelDue(Cancels(m, ys[..|ys| - 1]), ys[|ys| - 1], it, now);
    }
  }

  // ----- one tick -----

  lemma KeysLater(db: Db, clock: int, now: int)
    requires KeysBehind(db, clock) && clock <= now
    ensures KeysBehind(db, now)
  {
    DayMonotone(clock, now);
    forall it, day | Used(db.books, Renewal(it, day)) ensures Behind(db, now, it, day) {
      assert Behind(db, clock, it, day);
    }
  }

  lemma {:induction false} AllNow(es: seq<Event>, now: int)
    requires forall i :: 0 <= i < |es| ==> At(es[i]) == Some(now)
    ensures Clock(now, es) == now && Monotone(now, es)
    decreases |es|
  {
    if es != [] {
      var n := |es| - 1;
      AllNow(es[..n], now);
      forall i | 0 <= i < |es| ensures Clock(now, es[..i]) <= Tock(Clock(now, es[..i]), es[i]) {
        if i < n { assert es[..n][..i] == es[..i] && es[..n][i] == es[i]; }
      }
    }
  }

  lemma TickBehind(db: Db, d: Db, xs: seq<Item>, ys: seq<Item>, now: int, live: Catalog)
    requires TickOf(db, d, xs, ys, now, live) && KeysBehind(db, now)
    ensures KeysBehind(d, now)
  {
    var es := ChargeEvents(xs, now, live) + CancelEvents(ys, now);
    TickIsTimelyRun(db, d, xs, ys, now, live);
    AllNow(es, now);
    RunBehind(db, now, es);
  }

  /** Charged items are not cancelled in the same tick. */
  lemma DueNotCancelled(db: Db, ys: seq<Item>, it: Item, now: int)
    requires Due(db, it, now) && forall y :: y in ys <==> Expired(db, y, now)
    ensures it !in ys
  {
  }

  /** A billed item after the tick: one cycle further, everything else about it in order. */
  lemma TickRenews(db: Db, d: Db, xs: seq<Item>, ys: seq<Item>, u: User, now: int, live: Catalog, it: Item)
    requires TickOf(db, d, xs, ys, now, live) && KeysBehind(db, now) && Bills(db, it, u, now, live)
    requires u in db.books.wallets && db.books.wallets[u].balance >= Total(Prices(db, u, now, live))
    ensures it in d.subs && d.subs[it] == Renewed(db.subs[it]) && OwnRow(d, it)
  {
    AllPaid(db, xs, u, now, live);
    ChargesMid(db, xs, u, now, live);
    DueNotCancelled(db, ys, it, now);
    CancelsSpare(Charges(db, xs, now, live), ys, it);
  }

  lemma TickBalance(db: Db, d: Db, xs: seq<Item>, ys: seq<Item>, u: User, now: int, live: Catalog)
    requires TickOf(db, d, xs, ys, now, live) && KeysBehind(db, now)
    requires u in db.books.wallets && db.books.wallets[u].balance >= Total(Prices(db, u, now, live))
    ensures u in d.books.wallets
    ensures d.books.wallets[u].balance == db.books.wallets[u].balance - Total(Prices(db, u, now, live))
  {
    AllPaid(db, xs, u, now, live);
    ChargesMid(db, xs, u, now, live);
    CancelsBooks(Charges(db, xs, now, live), ys);
  }

  /** Whatever is billed after the tick was billed before it. */
  lemma BilledBefore(db: Db, d: Db, xs: seq<Item>, ys: seq<Item>, u: User, now: int, live: Catalog, it: Item)
    requires TickOf(db, d, xs, ys, now, live) && KeysBehind(db, now) && Bills(d, it, u, now, live)
    requires u in db.books.wallets && db.books.wallets[u].balance >= Total(Prices(db, u, now, live))
    ensures Bills(db, it, u, now, live)
  {
    AllPaid(db, xs, u, now, live);
    ChargesMid(db, xs, u, now, live);
    var m := Charges(db, xs, now, live);
    CancelsDue(m, ys, it, now);
    assert Due(m, it, now) && d.subs[it] == m.subs[it];
    assert it in xs;
  }

  lemma RenewedBills(db: Db, d: Db, u: User, now: int, live: Catalog, it: Item)
    requires Bills(db, it, u, now, live) && it in d.subs && d.subs[it] == Renewed(db.subs[it]) && OwnRow(d, it)
    ensures Bills(d, it, u, now, live) <==> OverdueAt(db, it, now) > 1
    ensures OverdueAt(d, it, now) == OverdueAt(db, it, now) - 1 && PriceAt(d, it, live) == PriceAt(db, it, live)
  {
    OverdueStep(db.subs[it].next.value, now);
  }

  /** Catching up, one tick: if the owner can pay everything overdue, every billed item pays exactly one
      cycle, the balance falls by the sum of their prices (a locked row is billed its price column), and what
      is owed falls with it. */
  lemma TickPays(db: Db, d: Db, xs: seq<Item>, ys: seq<Item>, u: User, now: int, live: Catalog)
    requires TickOf(db, d, xs, ys, now, live) && KeysBehind(db, now)
    requires u in db.books.wallets && db.books.wallets[u].balance >= Total(Owed(db, u, now, live))
    ensures forall it :: Bills(d, it, u, now, live) <==> Bills(db, it, u, now, live) && OverdueAt(db, it, now) > 1
    ensures forall it :: Bills(db, it, u, now, live) ==>
              it in d.subs && d.subs[it] == Renewed(db.subs[it]) && OverdueAt(d, it, now) == OverdueAt(db, it, now) - 1
    ensures u in d.books.wallets
    ensures d.books.wallets[u].balance - Total(Owed(d, u, now, live)) ==
            db.books.wallets[u].balance - Total(Owed(db, u, now, live))
    ensures d.books.wallets[u].balance == db.books.wallets[u].balance - Total(Prices(db, u, now, live))
    ensures forall it, p: nat :: Bills(db, it, u, now, live) && db.subs[it].price == Some(p) ==>
              Prices(db, u, now, live)[it] == p
  {
    OwedSplits(db, u, now, live);
    TickBalance(db, d, xs, ys, u, now, live);
    forall it | Bills(db, it, u, now, live)
      ensures it in d.subs && d.subs[it] == Renewed(db.subs[it]) && PriceAt(d, it, live) == PriceAt(db, it, live)
      ensures OverdueAt(d, it, now) == OverdueAt(db, it, now) - 1
      ensures Bills(d, it, u, now, live) <==> OverdueAt(db, it, now) > 1
    {
      TickRenews(db, d, xs, ys, u, now, live, it);
      RenewedBills(db, d, u, now, live, it);
    }
    forall it | Bills(d, it, u, now, live) ensures Bills(db, it, u, now, live) {
      BilledBefore(db, d, xs, ys, u, now, live, it);
    }
    RestIsOwed(db, d, u, now, live);
  }

  lemma RestIsOwed(db: Db, d: Db, u: User, now: int, live: Catalog)
    requires forall it :: Bills(d, it, u, now, live) <==> Bills(db, it, u, now, live) && OverdueAt(db, it, now) > 1
    requires forall it :: Bills(db, it, u, now, live) ==>
               OverdueAt(d, it, now) == OverdueAt(db, it, now) - 1 && PriceAt(d, it, live) == PriceAt(db, it, live)
    ensures Owed(d, u, now, live) == Rest(db, u, now, live)
  {
  }

  // ----- many ticks -----

  ghost predicate Ticked(db: Db, d: Db, now: int, live: Catalog) {
    exists xs, ys :: TickOf(db, d, xs, ys, now, live)
  }

  /** Consecutive ticks at one instant. */
  ghost predicate Ticks(ds: seq<Db>, now: int, live: Catalog) {
    |ds| >= 1 && forall k :: 0 <= k < |ds| - 1 ==> Ticked(ds[k], ds[k + 1], now, live)
  }

  /** An item that no tick at this instant touches. */
  ghost predicate PaidUp(d: Db, it: Item, next: int, now: int) {
    && it in d.subs && d.subs[it].next == Some(next) && next > now
    && d.subs[it].deleteAfter.None? && OwnRow(d, it)
  }

  lemma {:induction false} ChargesSpare(db: Db, xs: seq<Item>, now: int, live: Catalog, it: Item)
    requires it !in xs && it in db.subs
    ensures var m := Charges(db, xs, now, live);
            m.seats == db.seats && it in m.subs && m.subs[it] == db.subs[it]
    decreases |xs|
  {
    if xs != [] {
      var n := |xs| - 1;
      assert xs == xs[..n] + [xs[n]];
      ChargesSpare(db, xs[..n], now, live, it);
      var m := Charges(db, xs[..n], now, live);
      if xs[n] in m.subs { ChargeIsOne(m, xs[n], now, live(xs[n])); }
    }
  }

  lemma TickSpares(db: Db, d: Db, now: int, live: Catalog, it: Item, next: int)
    requires Ticked(db, d, now, live) && PaidUp(db, it, next, now)
    ensures PaidUp(d, it, next, now)
  {
    var xs, ys :| TickOf(db, d, xs, ys, now, live);
    assert it !in xs && it !in ys;
    ChargesSpare(db, xs, now, live, it);
    CancelsSpare(Charges(db, xs, now, live), ys, it);
  }

  /** Where an item is after n ticks: n cycles further, or done after its overdue ones. */
  ghost predicate Progress(db: Db, d: Db, n: nat, it: Item, u: User, now: int, live: Catalog)
    requires Bills(db, it, u, now, live)
  {
    var k, next := OverdueAt(db, it, now), db.subs[it].next.value;
    if n < k then
      Bills(d, it, u, now, live) && d.subs[it].next == Some(next + n * CYCLE) && OverdueAt(d, it, now) == k - n
    else PaidUp(d, it, next + k * CYCLE, now)
  }

  lemma OverdueEnds(next: int, now: int)
    requires next <= now
    ensures next + Overdue(next, now) * CYCLE > now
  {
  }

  lemma ProgressStep(db: Db, m: Db, d: Db, n: nat, it: Item, u: User, now: int, live: Catalog)
    requires Bills(db, it, u, now, live) && Progress(db, m, n, it, u, now, live) && Ticked(m, d, now, live)
    requires Bills(m, it, u, now, live) ==>
               it in d.subs && d.subs[it] == Renewed(m.subs[it]) && OwnRow(d, it) &&
               OverdueAt(d, it, now) == OverdueAt(m, it, now) - 1 &&
               (Bills(d, it, u, now, live) <==> OverdueAt(m, it, now) > 1)
    ensures Progress(db, d, n + 1, it, u, now, live)
  {
    var k, next := OverdueAt(db, it, now), db.subs[it].next.value;
    OverdueEnds(next, now);
    if n >= k { TickSpares(m, d, now, live, it, next + k * CYCLE); }
  }

  /** The owner's wallet beyond what is owed. */
  ghost function Spare(db: Db, u: User, now: int, live: Catalog): int
    requires u in db.books.wallets
  {
    db.books.wallets[u].balance - Total(Owed(db, u, now, live))
  }

  ghost predicate Caught(db: Db, d: Db, n: nat, u: User, now: int, live: Catalog) {
    && KeysBehind(d, now) && u in db.books.wallets && u in d.books.wallets
    && Spare(d, u, now, live) == Spare(db, u, now, live)
    && (forall it :: Bills(db, it, u, now, live) ==> Progress(db, d, n, it, u, now, live))
    && (forall it :: Bills(d, it, u, now, live) ==> Bills(db, it, u, now, live))
  }

  lemma CaughtAtStart(db: Db, u: User, now: int, live: Catalog)
    requires KeysBehind(db, now) && u in db.books.wallets
    ensures Caught(db, db, 0, u, now, live)
  {
    forall it | Bills(db, it, u, now, live) ensures Progress(db, db, 0, it, u, now, live) { DueOverdue(db, it, now); }
  }

  lemma CaughtStep(db: Db, m: Db, d: Db, n: nat, u: User, now: int, live: Catalog)
    requires Caught(db, m, n, u, now, live) && Ticked(m, d, now, live) && Spare(db, u, now, live) >= 0
    ensures Caught(db, d, n + 1, u, now, live)
  {
    var xs, ys :| TickOf(m, d, xs, ys, now, live);
    TickBehind(m, d, xs, ys, now, live);
    TickPays(m, d, xs, ys, u, now, live);
    OwedSplits(m, u, now, live);
    forall it | Bills(db, it, u, now, live) ensures Progress(db, d, n + 1, it, u, now, live) {
      if Bills(m, it, u, now, live) { TickRenews(m, d, xs, ys, u, now, live, it); }
      ProgressStep(db, m, d, n, it, u, now, live);
    }
  }

  lemma TicksInit(ds: seq<Db>, now: int, live: Catalog)
    requires Ticks(ds, now, live) && |ds| > 1
    ensures var n := |ds| - 1; Ticks(ds[..n], now, live) && Ticked(ds[n - 1], ds[n], now, live)
  {
    var n := |ds| - 1;
    assert Ticked(ds[n - 1], ds[n - 1 + 1], now, live);
  }

  lemma {:induction false} CatchesUpRun(ds: seq<Db>, u: User, now: int, live: Catalog)
    requires Ticks(ds, now, live) && KeysBehind(ds[0], now)
    requires u in ds[0].books.wallets && Spare(ds[0], u, now, live) >= 0
    ensures Caught(ds[0], ds[|ds| - 1], |ds| - 1, u, now, live)
    decreases |ds|
  {
    if |ds| == 1 {
      CaughtAtStart(ds[0], u, now, live);
    } else {
      var n := |ds| - 1;
      TicksInit(ds, now, live);
      CatchesUpRun(ds[..n], u, now, live);
      CaughtStep(ds[0], ds[n - 1], ds[n], n - 1, u, now, live);
    }
  }

  /** Catch-up terminates: with enough balance for everything the owner's due items owe, after n ticks at
      one instant each of them has paid its first n overdue cycles, or all of them if there were fewer,
      and the balance has fallen by exactly what was paid; once n reaches the largest number of overdue
      cycles, every one of them is current and the balance has fallen by exactly what was owed. */
  lemma CatchesUp(ds: seq<Db>, clock: int, u: User, now: int, live: Catalog)
    requires Ticks(ds, now, live) && KeysBehind(ds[0], clock) && clock <= now
    requires u in ds[0].books.wallets && ds[0].books.wallets[u].balance >= Total(Owed(ds[0], u, now, live))
    ensures var n := |ds| - 1; var db, d := ds[0], ds[n];
            && (forall it :: Bills(db, it, u, now, live) ==> Progress(db, d, n, it, u, now, live))
            && u in d.books.wallets && Spare(d, u, now, live) == Spare(db, u, now, live)
            && ((forall it :: Bills(db, it, u, now, live) ==> OverdueAt(db, it, now) <= n) ==>
                  && (forall it :: !Bills(d, it, u, now, live))
                  && d.books.wallets[u].balance == db.books.wallets[u].balance - Total(Owed(db, u, now, live)))
  {
    KeysLater(ds[0], clock, now);
    CatchesUpRun(ds, u, now, live);
    var n := |ds| - 1;
    var db, d := ds[0], ds[n];
    if forall it :: Bills(db, it, u, now, live) ==> OverdueAt(db, it, now) <= n {
      forall it ensures !Bills(d, it, u, now, live) {
        assert Bills(db, it, u, now, live) ==> Progress(db, d, n, it, u, now, live);
      }
      TotalZero(Owed(d, u, now, live));
    }
  }
}

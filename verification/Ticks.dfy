/** One billing tick that runs alone, row by row, and what its report counts. */
module Ticks {
  import opened Common
  import opened Ledger
  import opened Tables
  import opened Placement
  import opened Runs
  import opened Renewals
  import opened Scheduler
  import opened CatchUp
  import opened Effects

  /** The row is billed by a tick at this instant: live, its billing date reached, its grace not over; an
      address has an owner and is not inside a block. */
  ghost predicate BillTurn(db: Db, it: Item, now: int)
    requires it in db.subs
  {
    var s := db.subs[it];
    && s.status in {Current, Suspended} && s.next.Some? && s.next.value <= now
    && (s.deleteAfter.Some? ==> s.deleteAfter.value > now)
    && (it.Ip? ==> s.owner.Some? && it.addr in db.seats && db.seats[it.addr].block.None?)
  }

  /** The row is cancelled: its grace is over, and it is not gone already. */
  ghost predicate GraceOver(db: Db, it: Item, now: int)
    requires it in db.subs
  {
    var s := db.subs[it];
    && s.deleteAfter.Some? && s.deleteAfter.value <= now
    && (if it.Tunnel? then s.status != Closed else s.status in {Current, Suspended})
    && (it.Ip? ==> it.addr in db.seats && db.seats[it.addr].block.None?)
  }

  /** What a cancellation leaves of the row: a tunnel and a block keep their owner, an address does not. */
  function CancelledRow(it: Item, s: Sub): Sub {
    if it.Ip? then Sub(None, Closed, s.price, None, None, None) else Sub(s.owner, Closed, s.price, s.next, None, None)
  }

  function PaidRow(s: Sub): Sub
    requires s.next.Some?
  {
    Sub(s.owner, Current, s.price, Some(s.next.value + CYCLE), None, None)
  }

  function UnpaidRow(s: Sub, now: int): Sub {
    Sub(s.owner, Suspended, s.price, s.next, Some(if s.suspendedAt.Some? then s.suspendedAt.value else now),
        Some(if s.deleteAfter.Some? then s.deleteAfter.value else now + GRACE))
  }

  lemma WalletsStay(db: Db, it: Item, now: int, live: Option<nat>)
    ensures Charge(db, it, now, live).0.books.wallets.Keys == db.books.wallets.Keys
  {
  }

  lemma {:induction false} ChargesWallets(db: Db, xs: seq<Item>, now: int, live: Catalog)
    ensures Charges(db, xs, now, live).books.wallets.Keys == db.books.wallets.Keys
    decreases |xs|
  {
    if xs != [] {
      ChargesWallets(db, xs[..|xs| - 1], now, live);
      WalletsStay(Charges(db, xs[..|xs| - 1], now, live), xs[|xs| - 1], now, live(xs[|xs| - 1]));
    }
  }

  lemma {:induction false} ChargesBehind(db: Db, xs: seq<Item>, now: int, live: Catalog)
    requires Distinct(xs) && (forall x :: x in xs ==> Due(db, x, now)) && KeysBehind(db, now)
    ensures KeysBehind(Charges(db, xs, now, live), now)
    decreases |xs|
  {
    if xs != [] {
      var n := |xs| - 1;
      DistinctInit(xs);
      ChargesBehind(db, xs[..n], now, live);
      ChargesStable(db, xs[..n], now, live, xs[n]);
      ChargeStepBehind(Charges(db, xs[..n], now, live), now, xs[n], now, live(xs[n]));
    }
  }

  /** The state in which an item's turn comes: its own row, all seats and everybody's wallet are there. */
  ghost predicate Turn(db: Db, m: Db, it: Item) {
    && it in db.subs && it in m.subs && m.subs[it] == db.subs[it] && m.seats == db.seats
    && m.books.wallets.Keys == db.books.wallets.Keys
  }

  lemma {:induction false} ChargeTurn(db: Db, xs: seq<Item>, now: int, live: Catalog, it: Item) returns (m: Db)
    requires Distinct(xs) && (forall x :: x in xs ==> Due(db, x, now)) && it in xs && it in db.subs
    ensures Turn(db, m, it) && (KeysBehind(db, now) ==> KeysBehind(m, now))
    ensures var e := Charges(db, xs, now, live);
            it in e.subs && e.seats == db.seats && it in Charge(m, it, now, live(it)).0.subs &&
            e.subs[it] == Charge(m, it, now, live(it)).0.subs[it]
    decreases |xs|
  {
    var n := |xs| - 1;
    DistinctInit(xs);
    if xs[n] == it {
      m := Charges(db, xs[..n], now, live);
      ChargesSpare(db, xs[..n], now, live, it);
      ChargesWallets(db, xs[..n], now, live);
      if KeysBehind(db, now) { ChargesBehind(db, xs[..n], now, live); }
      ChargeIsOne(m, it, now, live(it));
    } else {
      m := ChargeTurn(db, xs[..n], now, live, it);
      var e := Charges(db, xs[..n], now, live);
      ChargesStable(db, xs[..n], now, live, xs[n]);
      ChargeIsOne(e, xs[n], now, live(xs[n]));
    }
  }

  lemma OwnCancel(m: Db, it: Item)
    requires it in m.subs && OwnRow(m, it) && (it.Tunnel? ==> m.subs[it].status != Closed)
    requires it.Block? ==> it.b in m.extents
    ensures var d := Cancel(m, it);
            it in d.subs && d.subs[it] == CancelledRow(it, m.subs[it]) && OwnRow(d, it) && d.extents == m.extents
  {
    match it
    case Tunnel(t) => CancelTunnelDoes(m, t);
    case Ip(a) => CancelIpDoes(m, a);
    case Block(b) => CancelBlockDoes(m, b);
  }

  lemma CancelExtents(m: Db, y: Item)
    ensures Cancel(m, y).extents == m.extents
  {
  }

  lemma {:induction false} CancelsExtents(m: Db, ys: seq<Item>)
    ensures Cancels(m, ys).extents == m.extents
    decreases |ys|
  {
    if ys != [] {
      CancelsExtents(m, ys[..|ys| - 1]);
      CancelExtents(Cancels(m, ys[..|ys| - 1]), ys[|ys| - 1]);
    }
  }

  /** Of the cancellations of a tick only the item's own reaches its row. */
  lemma {:induction false} CancelTurn(m: Db, ys: seq<Item>, it: Item)
    requires Distinct(ys) && it in ys && it in m.subs && OwnRow(m, it) && (it.Tunnel? ==> m.subs[it].status != Closed)
    requires it.Block? ==> it.b in m.extents
    ensures var d := Cancels(m, ys); it in d.subs && d.subs[it] == CancelledRow(it, m.subs[it]) && OwnRow(d, it)
    decreases |ys|
  {
    var n := |ys| - 1;
    DistinctInit(ys);
    if ys[n] == it {
      CancelsSpare(m, ys[..n], it);
      CancelsExtents(m, ys[..n]);
      OwnCancel(Cancels(m, ys[..n]), it);
    } else {
      CancelTurn(m, ys[..n], it);
      CancelSpares(Cancels(m, ys[..n]), ys[n], it);
    }
  }

  lemma {:induction false} ChargesExtents(db: Db, xs: seq<Item>, now: int, live: Catalog)
    ensures Charges(db, xs, now, live).extents == db.extents
    decreases |xs|
  {
    if xs != [] { ChargesExtents(db, xs[..|xs| - 1], now, live); }
  }

  /** A row that is neither billed nor cancelled is as before. */
  lemma TickLeaves(db: Db, d: Db, xs: seq<Item>, ys: seq<Item>, now: int, live: Catalog, it: Item)
    requires TickOf(db, d, xs, ys, now, live) && it in db.subs && OwnRow(db, it)
    requires !BillTurn(db, it, now) && !GraceOver(db, it, now)
    ensures it in d.subs && d.subs[it] == db.subs[it]
  {
    assert it !in xs && it !in ys;
    ChargesSpare(db, xs, now, live, it);
    CancelsSpare(Charges(db, xs, now, live), ys, it);
  }

  /** A row whose grace is over is closed, without grace dates; an address loses its owner. */
  lemma TickCancels(db: Db, d: Db, xs: seq<Item>, ys: seq<Item>, now: int, live: Catalog, it: Item)
    requires TickOf(db, d, xs, ys, now, live) && it in db.subs && OwnRow(db, it) && GraceOver(db, it, now)
    requires it.Block? ==> it.b in db.extents
    ensures it in d.subs && d.subs[it] == CancelledRow(it, db.subs[it])
  {
    assert it in ys && it !in xs;
    ChargesSpare(db, xs, now, live, it);
    ChargesExtents(db, xs, now, live);
    CancelTurn(Charges(db, xs, now, live), ys, it);
  }

  lemma TurnIs(m: Db, it: Item, u: User, p: nat, now: int, live: Option<nat>)
    requires KeysBehind(m, now) && it in m.subs && m.subs[it].next.Some? && Billable(m, it, u) && u in m.books.wallets
    requires m.subs[it].price == Some(p) || (m.subs[it].price.None? && live == Some(p))
    ensures var (d, o) := Charge(m, it, now, live); var s := m.subs[it];
            && it in d.subs && d.subs[it] == (if Affords(m, u, p) then PaidRow(s) else UnpaidRow(s, now))
            && (o == Charged <==> Affords(m, u, p)) && (o == SuspendedNow <==> !Affords(m, u, p))
  {
    var n := m.subs[it].next.value;
    assert Used(m.books, Renewal(it, Day(n))) ==> Behind(m, now, it, Day(n));
    ChargeTakes(m, it, u, n, p, now, live);
  }

  /** A billed row with a price and an owner's wallet ends paid for one cycle or suspended, according to the
      money that is there when its turn comes; suspension dates that it has are not moved. */
  lemma TickBills(db: Db, d: Db, xs: seq<Item>, ys: seq<Item>, now: int, live: Catalog, it: Item, u: User, p: nat)
    returns (m: Db)
    requires TickOf(db, d, xs, ys, now, live) && KeysBehind(db, now) && it in db.subs && BillTurn(db, it, now)
    requires db.subs[it].owner == Some(u) && u in db.books.wallets
    requires db.subs[it].price == Some(p) || (db.subs[it].price.None? && live(it) == Some(p))
    ensures Turn(db, m, it) && it in d.subs
    ensures d.subs[it] == if Affords(m, u, p) then PaidRow(db.subs[it]) else UnpaidRow(db.subs[it], now)
  {
    assert it in xs && it !in ys;
    m := ChargeTurn(db, xs, now, live, it);
    TurnIs(m, it, u, p, now, live(it));
    CancelsSpare(Charges(db, xs, now, live), ys, it);
  }

  // ----- what the report counts -----

  /** Ledger rows that renew items of this kind. */
  ghost function RenewalRows(rows: seq<Row>, k: Kind): nat
    decreases |rows|
  {
    if rows == [] then 0 else
    var r := rows[|rows| - 1];
    RenewalRows(rows[..|rows| - 1], k) +
    if r.key.Some? && r.key.value.Renewal? && KindOf(r.key.value.item) == k then 1 else 0
  }

  lemma ChargeRows(m: Db, it: Item, now: int, live: Option<nat>, k: Kind)
    ensures var (d, o) := Charge(m, it, now, live);
            && RenewalRows(d.books.rows, k) ==
               RenewalRows(m.books.rows, k) + (if KindOf(it) == k && o == Charged then 1 else 0)
            && |d.books.rows| == |m.books.rows| + (if o == Charged then 1 else 0)
  {
    var (d, o) := Charge(m, it, now, live);
    if o == Charged { assert d.books.rows[..|m.books.rows|] == m.books.rows; }
  }

  lemma {:induction false} ChargesRows(db: Db, xs: seq<Item>, now: int, live: Catalog, k: Kind)
    ensures var m := Charges(db, xs, now, live);
            RenewalRows(m.books.rows, k) == RenewalRows(db.books.rows, k) + Tally(db, xs, now, live, k, Charged)
    ensures |Charges(db, xs, now, live).books.rows| ==
            |db.books.rows| + Tally(db, xs, now, live, Tunnels, Charged) + Tally(db, xs, now, live, Ips, Charged) +
            Tally(db, xs, now, live, Blocks, Charged)
    decreases |xs|
  {
    if xs != [] {
      var n := |xs| - 1;
      ChargesRows(db, xs[..n], now, live, k);
      ChargeRows(Charges(db, xs[..n], now, live), xs[n], now, live(xs[n]), k);
    }
  }

  /** Every due item has a price, and its owner a wallet. */
  ghost predicate AllPriced(db: Db, now: int, live: Catalog) {
    forall it :: Due(db, it, now) ==>
      db.subs[it].owner.Some? && db.subs[it].owner.value in db.books.wallets &&
      (db.subs[it].price.Some? || live(it).Some?)
  }

  lemma {:induction false} ChargesCounted(db: Db, xs: seq<Item>, now: int, live: Catalog, k: Kind)
    requires Distinct(xs) && (forall x :: x in xs ==> Due(db, x, now)) && KeysBehind(db, now) && AllPriced(db, now, live)
    ensures Tally(db, xs, now, live, k, Charged) + Tally(db, xs, now, live, k, SuspendedNow) == KindCount(xs, k)
    decreases |xs|
  {
    if xs != [] {
      var n := |xs| - 1;
      var it := xs[n];
      DistinctInit(xs);
      ChargesCounted(db, xs[..n], now, live, k);
      var m := Charges(db, xs[..n], now, live);
      ChargesSpare(db, xs[..n], now, live, it);
      ChargesWallets(db, xs[..n], now, live);
      ChargesBehind(db, xs[..n], now, live);
      var s := db.subs[it];
      TurnIs(m, it, s.owner.value, if s.price.Some? then s.price.value else live(it).value, now, live(it));
    }
  }

  /** The report of a tick: for each kind, as many charges as renewal rows were added to the ledger, which
      gains no other row; as many cancellations as items whose grace was over; and when every due item has a
      price and a wallet, charges and suspensions together are the due items. */
  lemma ReportCounts(db: Db, d: Db, xs: seq<Item>, ys: seq<Item>, now: int, live: Catalog, k: Kind)
    requires TickOf(db, d, xs, ys, now, live)
    ensures var r := TickReport(db, xs, ys, now, live, k);
            && RenewalRows(d.books.rows, k) == RenewalRows(db.books.rows, k) + r.charged
            && r.cancelled == KindCount(ys, k)
            && (KeysBehind(db, now) && AllPriced(db, now, live) ==> r.charged + r.suspended == KindCount(xs, k))
    ensures |d.books.rows| == |db.books.rows| + TickReport(db, xs, ys, now, live, Tunnels).charged +
                              TickReport(db, xs, ys, now, live, Ips).charged +
                              TickReport(db, xs, ys, now, live, Blocks).charged
  {
    ChargesRows(db, xs, now, live, k);
    CancelsBooks(Charges(db, xs, now, live), ys);
    if KeysBehind(db, now) && AllPriced(db, now, live) { ChargesCounted(db, xs, now, live, k); }
  }
}

/** The billing tick as the worker runs it: the tables as fields, one loop per selection
    (packages/provisioning/src/billing-scheduler.ts). */
module Scheduler {
  import opened Common
  import opened Ledger
  import opened Tables
  import opened Placement
  import opened Runs

  datatype Kind = Tunnels | Ips | Blocks

  function KindOf(it: Item): Kind {
    match it
    case Tunnel(_) => Tunnels
    case Ip(_) => Ips
    case Block(_) => Blocks
  }

  type Catalog = Item -> Option<nat>

  ghost function ChargeEvents(xs: seq<Item>, now: int, live: Catalog): (es: seq<Event>)
    ensures |es| == |xs| && forall i :: 0 <= i < |xs| ==> es[i] == DoCharge(xs[i], now, live(xs[i]))
  {
    seq(|xs|, i requires 0 <= i < |xs| => DoCharge(xs[i], now, live(xs[i])))
  }

  ghost function CancelEvents(xs: seq<Item>, now: int): (es: seq<Event>)
    ensures |es| == |xs| && forall i :: 0 <= i < |xs| ==> es[i] == DoCancel(xs[i], now)
  {
    seq(|xs|, i requires 0 <= i < |xs| => DoCancel(xs[i], now))
  }

  /** Charging these items one by one. */
  ghost function Charges(db: Db, xs: seq<Item>, now: int, live: Catalog): Db
    decreases |xs|
  {
    if xs == [] then db else
    var n := |xs| - 1;
    Charge(Charges(db, xs[..n], now, live), xs[n], now, live(xs[n])).0
  }

  /** Cancelling these items one by one. */
  ghost function Cancels(db: Db, xs: seq<Item>): Db
    decreases |xs|
  {
    if xs == [] then db else
    Cancel(Cancels(db, xs[..|xs| - 1]), xs[|xs| - 1])
  }

  /** How many of the charges on items of this kind, made in this order, ended with this outcome. */
  ghost function Tally(db: Db, xs: seq<Item>, now: int, live: Catalog, k: Kind, o: Outcome): nat
    decreases |xs|
  {
    if xs == [] then 0 else
    var n := |xs| - 1;
    Tally(db, xs[..n], now, live, k, o) +
    if KindOf(xs[n]) == k && Charge(Charges(db, xs[..n], now, live), xs[n], now, live(xs[n])).1 == o then 1 else 0
  }

  ghost function KindCount(xs: seq<Item>, k: Kind): nat
    decreases |xs|
  {
    if xs == [] then 0 else
    KindCount(xs[..|xs| - 1], k) + if KindOf(xs[|xs| - 1]) == k then 1 else 0
  }

  // ----- what one transaction of the tick leaves alone -----

  /** Only this item's billing columns differ, and its grace does not end now. */
  ghost predicate Rebilled(db: Db, d: Db, it: Item, now: int) {
    && d.seats == db.seats && it in db.subs && it in d.subs && d.subs == db.subs[it := d.subs[it]]
    && (d.subs[it].deleteAfter.None? || d.subs[it].deleteAfter.value > now)
  }

  lemma ChargeRebills(db: Db, it: Item, now: int, live: Option<nat>)
    requires Due(db, it, now)
    ensures Rebilled(db, Charge(db, it, now, live).0, it, now)
  {
  }

  lemma RebilledStable(db: Db, d: Db, it: Item, now: int, other: Item)
    requires Due(db, it, now) && Rebilled(db, d, it, now)
    ensures other != it ==> (Due(d, other, now) <==> Due(db, other, now))
    ensures Expired(d, other, now) <==> Expired(db, other, now)
  {
  }

  /** Charging one item affects no other item's selection, and moves none in or out of the expired ones. */
  lemma ChargeStable(db: Db, it: Item, now: int, live: Option<nat>, other: Item)
    requires Due(db, it, now)
    ensures var d := Charge(db, it, now, live).0;
            (other != it ==> (Due(d, other, now) <==> Due(db, other, now))) &&
            (Expired(d, other, now) <==> Expired(db, other, now))
  {
    ChargeRebills(db, it, now, live);
    RebilledStable(db, Charge(db, it, now, live).0, it, now, other);
  }

  lemma CancelTunnelStable(db: Db, t: nat, now: int, other: Item)
    ensures other != Tunnel(t) ==> (Expired(CancelTunnel(db, t), other, now) <==> Expired(db, other, now))
  {
  }

  lemma CancelIpStable(db: Db, a: nat, now: int, other: Item)
    ensures other != Ip(a) ==> (Expired(CancelIp(db, a), other, now) <==> Expired(db, other, now))
  {
  }

  lemma CancelBlockStable(db: Db, b: nat, now: int, other: Item)
    ensures other != Block(b) ==> (Expired(CancelBlock(db, b), other, now) <==> Expired(db, other, now))
  {
  }

  lemma CancelStable(db: Db, it: Item, now: int, other: Item)
    requires other != it
    ensures Expired(Cancel(db, it), other, now) <==> Expired(db, other, now)
  {
    match it
    case Tunnel(t) => CancelTunnelStable(db, t, now, other);
    case Ip(a) => CancelIpStable(db, a, now, other);
    case Block(b) => CancelBlockStable(db, b, now, other);
  }

  lemma RunSnoc(db: Db, es: seq<Event>, e: Event)
    ensures Run(db, es + [e]) == Step(Run(db, es), e)
    ensures TimelyRun(db, es) && Timely(Run(db, es), e) ==> TimelyRun(db, es + [e])
  {
    var fs := es + [e];
    assert fs[..|es|] == es;
    assert forall i :: 0 <= i < |es| ==> fs[..i] == es[..i];
  }

  lemma {:induction false} RunAppend(db: Db, es: seq<Event>, fs: seq<Event>)
    ensures Run(db, es + fs) == Run(Run(db, es), fs)
    ensures TimelyRun(db, es) && TimelyRun(Run(db, es), fs) ==> TimelyRun(db, es + fs)
    decreases |fs|
  {
    if fs == [] {
      assert es + fs == es;
    } else {
      var n := |fs| - 1;
      var init, e := fs[..n], fs[n];
      assert fs == init + [e];
      assert es + fs == (es + init) + [e];
      RunAppend(db, es, init);
      RunSnoc(db, es + init, e);
      RunSnoc(Run(db, es), init, e);
      if TimelyRun(Run(db, es), fs) { RunPrefix(Run(db, es), fs); }
    }
  }

  /** A sequence of states linked by timely steps is a timely run. */
  lemma {:induction false} RunThrough(db: Db, es: seq<Event>, ss: seq<Db>)
    requires |ss| == |es| + 1 && ss[0] == db
    requires forall i :: 0 <= i < |es| ==> ss[i + 1] == Step(ss[i], es[i]) && Timely(ss[i], es[i])
    ensures Run(db, es) == ss[|es|] && TimelyRun(db, es)
    decreases |es|
  {
    if es != [] {
      var n := |es| - 1;
      var e := es[n];
      RunThrough(db, es[..n], ss[..n + 1]);
      assert es == es[..n] + [e];
      RunSnoc(db, es[..n], e);
    }
  }

  lemma ChargeLink(db: Db, xs: seq<Item>, now: int, live: Catalog, i: nat)
    requires Distinct(xs) && (forall x :: x in xs ==> Due(db, x, now)) && i < |xs|
    ensures Due(Charges(db, xs[..i], now, live), xs[i], now)
    ensures Charge(Charges(db, xs[..i], now, live), xs[i], now, live(xs[i])).0 == Charges(db, xs[..i + 1], now, live)
  {
    assert xs[..i + 1][..i] == xs[..i];
    ChargesStable(db, xs[..i], now, live, xs[i]);
  }

  lemma ChargeLinkStep(db: Db, xs: seq<Item>, now: int, live: Catalog, i: nat)
    requires Distinct(xs) && (forall x :: x in xs ==> Due(db, x, now)) && i < |xs|
    ensures var d, e := Charges(db, xs[..i], now, live), DoCharge(xs[i], now, live(xs[i]));
            Charges(db, xs[..i + 1], now, live) == Step(d, e) && Timely(d, e)
  {
    ChargeLink(db, xs, now, live, i);
  }

  lemma CancelLink(db: Db, xs: seq<Item>, now: int, i: nat)
    requires Distinct(xs) && (forall x :: x in xs ==> Expired(db, x, now)) && i < |xs|
    ensures Expired(Cancels(db, xs[..i]), xs[i], now)
    ensures Cancel(Cancels(db, xs[..i]), xs[i]) == Cancels(db, xs[..i + 1])
  {
    assert xs[..i + 1][..i] == xs[..i];
    CancelsStable(db, xs[..i], now, xs[i]);
  }

  lemma CancelLinkStep(db: Db, xs: seq<Item>, now: int, i: nat)
    requires Distinct(xs) && (forall x :: x in xs ==> Expired(db, x, now)) && i < |xs|
    ensures var d, e := Cancels(db, xs[..i]), DoCancel(xs[i], now);
            Cancels(db, xs[..i + 1]) == Step(d, e) && Timely(d, e)
  {
    CancelLink(db, xs, now, i);
  }

  lemma DistinctInit(xs: seq<Item>)
    requires Distinct(xs) && xs != []
    ensures var n := |xs| - 1;
            Distinct(xs[..n]) && xs[n] !in xs[..n] && forall x :: x in xs <==> x in xs[..n] || x == xs[n]
  {
    var n := |xs| - 1;
    assert xs == xs[..n] + [xs[n]];
  }

  /** A phase over distinct due items selects nothing new and drops nothing it has not reached. */
  lemma {:induction false} ChargesStable(db: Db, xs: seq<Item>, now: int, live: Catalog, other: Item)
    requires Distinct(xs) && forall x :: x in xs ==> Due(db, x, now)
    ensures other !in xs ==> (Due(Charges(db, xs, now, live), other, now) <==> Due(db, other, now))
    ensures Expired(Charges(db, xs, now, live), other, now) <==> Expired(db, other, now)
    decreases |xs|
  {
    if xs != [] {
      var n := |xs| - 1;
      DistinctInit(xs);
      ChargesStable(db, xs[..n], now, live, xs[n]);
      ChargesStable(db, xs[..n], now, live, other);
      ChargeStable(Charges(db, xs[..n], now, live), xs[n], now, live(xs[n]), other);
    }
  }

  lemma ChargesRun(db: Db, xs: seq<Item>, now: int, live: Catalog)
    requires Distinct(xs) && forall x :: x in xs ==> Due(db, x, now)
    ensures Charges(db, xs, now, live) == Run(db, ChargeEvents(xs, now, live))
    ensures TimelyRun(db, ChargeEvents(xs, now, live))
  {
    var es := ChargeEvents(xs, now, live);
    var ss := seq(|xs| + 1, i requires 0 <= i <= |xs| => Charges(db, xs[..i], now, live));
    forall i | 0 <= i < |es| ensures ss[i + 1] == Step(ss[i], es[i]) && Timely(ss[i], es[i]) {
      ChargeLinkStep(db, xs, now, live, i);
    }
    assert xs[..|xs|] == xs;
    RunThrough(db, es, ss);
  }

  lemma {:induction false} CancelsStable(db: Db, xs: seq<Item>, now: int, other: Item)
    requires other !in xs
    ensures Expired(Cancels(db, xs), other, now) <==> Expired(db, other, now)
    decreases |xs|
  {
    if xs != [] {
      var n := |xs| - 1;
      assert xs == xs[..n] + [xs[n]];
      CancelsStable(db, xs[..n], now, other);
      CancelStable(Cancels(db, xs[..n]), xs[n], now, other);
    }
  }

  lemma CancelsRun(db: Db, xs: seq<Item>, now: int)
    requires Distinct(xs) && forall x :: x in xs ==> Expired(db, x, now)
    ensures Cancels(db, xs) == Run(db, CancelEvents(xs, now))
    ensures TimelyRun(db, CancelEvents(xs, now))
  {
    var es, ss := CancelEvents(xs, now), seq(|xs| + 1, i requires 0 <= i <= |xs| => Cancels(db, xs[..i]));
    forall i | 0 <= i < |es| ensures ss[i + 1] == Step(ss[i], es[i]) && Timely(ss[i], es[i]) {
      CancelLinkStep(db, xs, now, i);
    }
    assert xs[..|xs|] == xs;
    RunThrough(db, es, ss);
  }

  // ----- joining the phases -----

  lemma {:induction false} ChargesAppend(db: Db, xs: seq<Item>, ys: seq<Item>, now: int, live: Catalog)
    ensures Charges(db, xs + ys, now, live) == Charges(Charges(db, xs, now, live), ys, now, live)
    ensures forall k, o :: Tally(db, xs + ys, now, live, k, o) ==
                           Tally(db, xs, now, live, k, o) + Tally(Charges(db, xs, now, live), ys, now, live, k, o)
    decreases |ys|
  {
    if ys == [] {
      assert xs + ys == xs;
    } else {
      var n := |ys| - 1;
      assert (xs + ys)[..|xs| + n] == xs + ys[..n];
      ChargesAppend(db, xs, ys[..n], now, live);
    }
  }

  lemma {:induction false} CancelsAppend(db: Db, xs: seq<Item>, ys: seq<Item>)
    ensures Cancels(db, xs + ys) == Cancels(Cancels(db, xs), ys)
    ensures forall k :: KindCount(xs + ys, k) == KindCount(xs, k) + KindCount(ys, k)
    decreases |ys|
  {
    if ys == [] {
      assert xs + ys == xs;
    } else {
      var n := |ys| - 1;
      assert (xs + ys)[..|xs| + n] == xs + ys[..n];
      CancelsAppend(db, xs, ys[..n]);
    }
  }

  /** A list of items of one kind. */
  ghost predicate AllOf(xs: seq<Item>, k: Kind) {
    forall x :: x in xs ==> KindOf(x) == k
  }

  lemma {:induction false} OtherKinds(db: Db, xs: seq<Item>, now: int, live: Catalog, k: Kind)
    requires AllOf(xs, k)
    ensures forall j, o :: j != k ==> Tally(db, xs, now, live, j, o) == 0
    ensures forall j :: KindCount(xs, j) == if j == k then |xs| else 0
    decreases |xs|
  {
    if xs != [] {
      var n := |xs| - 1;
      assert xs[n] in xs;
      OtherKinds(db, xs[..n], now, live, k);
    }
  }

  /** The list has, once each, exactly the items that are due and of these kinds. */
  ghost predicate SelectsDue(db: Db, xs: seq<Item>, ks: set<Kind>, now: int) {
    Distinct(xs) && forall it :: it in xs <==> KindOf(it) in ks && Due(db, it, now)
  }

  ghost predicate SelectsExpired(db: Db, xs: seq<Item>, ks: set<Kind>, now: int) {
    Distinct(xs) && forall it :: it in xs <==> KindOf(it) in ks && Expired(db, it, now)
  }

  lemma JoinDue(db: Db, xs: seq<Item>, ks: set<Kind>, ys: seq<Item>, k: Kind, now: int, live: Catalog)
    requires SelectsDue(db, xs, ks, now) && k !in ks && SelectsDue(Charges(db, xs, now, live), ys, {k}, now)
    ensures SelectsDue(db, xs + ys, ks + {k}, now)
  {
    forall it | KindOf(it) == k ensures it in ys <==> Due(db, it, now) {
      ChargesStable(db, xs, now, live, it);
    }
    forall it ensures it in xs + ys <==> KindOf(it) in ks + {k} && Due(db, it, now) {
      if KindOf(it) == k { assert it in ys <==> Due(db, it, now); }
    }
    assert forall i, j :: 0 <= i < |xs| && 0 <= j < |ys| ==> xs[i] in xs && ys[j] in ys;
  }

  lemma JoinExpired(db: Db, xs: seq<Item>, ks: set<Kind>, ys: seq<Item>, k: Kind, now: int)
    requires SelectsExpired(db, xs, ks, now) && k !in ks && SelectsExpired(Cancels(db, xs), ys, {k}, now)
    ensures SelectsExpired(db, xs + ys, ks + {k}, now)
  {
    forall it | KindOf(it) == k ensures it in ys <==> Expired(db, it, now) {
      CancelsStable(db, xs, now, it);
    }
    forall it ensures it in xs + ys <==> KindOf(it) in ks + {k} && Expired(db, it, now) {
      if KindOf(it) == k { assert it in ys <==> Expired(db, it, now); }
    }
    assert forall i, j :: 0 <= i < |xs| && 0 <= j < |ys| ==> xs[i] in xs && ys[j] in ys;
  }

  /** What a whole tick at one instant does to the tables: the items due when it began are charged, once
      each, then the items expired when it began are cancelled, once each. */
  ghost predicate TickOf(db: Db, d: Db, xs: seq<Item>, ys: seq<Item>, now: int, live: Catalog) {
    && d == Cancels(Charges(db, xs, now, live), ys)
    && Distinct(xs) && (forall it :: it in xs <==> Due(db, it, now))
    && Distinct(ys) && (forall it :: it in ys <==> Expired(db, it, now))
  }

  lemma ThreeDue(db: Db, xs: seq<Item>, ys: seq<Item>, zs: seq<Item>, now: int, live: Catalog)
    requires SelectsDue(db, xs, {Tunnels}, now)
    requires SelectsDue(Charges(db, xs, now, live), ys, {Ips}, now)
    requires SelectsDue(Charges(Charges(db, xs, now, live), ys, now, live), zs, {Blocks}, now)
    ensures var d := Charges(db, xs, now, live);
            var e := Charges(d, ys, now, live);
            SelectsDue(db, xs + ys + zs, {Tunnels, Ips, Blocks}, now) &&
            Charges(db, xs + ys + zs, now, live) == Charges(e, zs, now, live) &&
            (forall o :: Tally(db, xs + ys + zs, now, live, Tunnels, o) == Tally(db, xs, now, live, Tunnels, o)) &&
            (forall o :: Tally(db, xs + ys + zs, now, live, Ips, o) == Tally(d, ys, now, live, Ips, o)) &&
            (forall o :: Tally(db, xs + ys + zs, now, live, Blocks, o) == Tally(e, zs, now, live, Blocks, o))
  {
    var d := Charges(db, xs, now, live);
    var e := Charges(d, ys, now, live);
    JoinDue(db, xs, {Tunnels}, ys, Ips, now, live);
    ChargesAppend(db, xs, ys, now, live);
    assert {Tunnels} + {Ips} == {Tunnels, Ips};
    JoinDue(db, xs + ys, {Tunnels, Ips}, zs, Blocks, now, live);
    assert {Tunnels, Ips} + {Blocks} == {Tunnels, Ips, Blocks};
    ChargesAppend(db, xs + ys, zs, now, live);
    OtherKinds(db, xs, now, live, Tunnels);
    OtherKinds(d, ys, now, live, Ips);
    OtherKinds(e, zs, now, live, Blocks);
  }

  lemma ThreeExpired(db: Db, xs: seq<Item>, ys: seq<Item>, zs: seq<Item>, now: int, live: Catalog)
    requires SelectsExpired(db, xs, {Tunnels}, now)
    requires SelectsExpired(Cancels(db, xs), ys, {Ips}, now)
    requires SelectsExpired(Cancels(Cancels(db, xs), ys), zs, {Blocks}, now)
    ensures SelectsExpired(db, xs + ys + zs, {Tunnels, Ips, Blocks}, now)
    ensures Cancels(db, xs + ys + zs) == Cancels(Cancels(Cancels(db, xs), ys), zs)
    ensures KindCount(xs + ys + zs, Tunnels) == |xs| && KindCount(xs + ys + zs, Ips) == |ys|
    ensures KindCount(xs + ys + zs, Blocks) == |zs|
  {
    JoinExpired(db, xs, {Tunnels}, ys, Ips, now);
    CancelsAppend(db, xs, ys);
    assert {Tunnels} + {Ips} == {Tunnels, Ips};
    JoinExpired(db, xs + ys, {Tunnels, Ips}, zs, Blocks, now);
    assert {Tunnels, Ips} + {Blocks} == {Tunnels, Ips, Blocks};
    CancelsAppend(db, xs + ys, zs);
    OtherKinds(db, xs, now, live, Tunnels);
    OtherKinds(db, ys, now, live, Ips);
    OtherKinds(db, zs, now, live, Blocks);
  }

  lemma EveryKind(db: Db, mid: Db, xs: seq<Item>, ys: seq<Item>, now: int, live: Catalog)
    requires SelectsDue(db, xs, {Tunnels, Ips, Blocks}, now) && mid == Charges(db, xs, now, live)
    requires SelectsExpired(mid, ys, {Tunnels, Ips, Blocks}, now)
    ensures TickOf(db, Cancels(mid, ys), xs, ys, now, live)
  {
    assert forall it :: KindOf(it) in {Tunnels, Ips, Blocks};
    forall it ensures Expired(mid, it, now) <==> Expired(db, it, now) {
      ChargesStable(db, xs, now, live, it);
    }
  }

  /** A tick is a timely run, so every theorem about timely runs speaks of ticks. */
  lemma TickIsTimelyRun(db: Db, d: Db, xs: seq<Item>, ys: seq<Item>, now: int, live: Catalog)
    requires TickOf(db, d, xs, ys, now, live)
    ensures var es := ChargeEvents(xs, now, live) + CancelEvents(ys, now);
            d == Run(db, es) && TimelyRun(db, es)
  {
    var mid := Charges(db, xs, now, live);
    ChargesRun(db, xs, now, live);
    forall y | y in ys ensures Expired(mid, y, now) { ChargesStable(db, xs, now, live, y); }
    CancelsRun(mid, ys, now);
    RunAppend(db, ChargeEvents(xs, now, live), CancelEvents(ys, now));
  }

  lemma TickCareful(db: Db, xs: seq<Item>, ys: seq<Item>, now: int, live: Catalog)
    ensures CarefulRun(db, ChargeEvents(xs, now, live) + CancelEvents(ys, now))
  {
    var es := ChargeEvents(xs, now, live) + CancelEvents(ys, now);
    assert forall i :: 0 <= i < |es| ==> es[i].DoCharge? || es[i].DoCancel?;
  }

  /** A tick keeps the money, the ownership and the pool counters in order. */
  lemma TickKeeps(db: Db, d: Db, xs: seq<Item>, ys: seq<Item>, now: int, live: Catalog)
    requires TickOf(db, d, xs, ys, now, live) && Sound(db)
    ensures Sound(d) && (Balanced(db.books) ==> Balanced(d.books)) && (Counted(db) ==> Counted(d))
  {
    var es := ChargeEvents(xs, now, live) + CancelEvents(ys, now);
    TickIsTimelyRun(db, d, xs, ys, now, live);
    TickCareful(db, xs, ys, now, live);
    OwnershipKept(db, es);
    if Balanced(db.books) { LedgerConserved(db, es); }
    if Counted(db) { CountersKept(db, es); }
  }

  ghost predicate Gone(db: Db, t: nat) {
    Tunnel(t) in db.subs && db.subs[Tunnel(t)].status == Closed
  }

  lemma CancelGone(db: Db, it: Item, t: nat)
    requires Tunnel(t) in db.subs && (it == Tunnel(t) || Gone(db, t))
    ensures Gone(Cancel(db, it), t)
  {
  }

  lemma CancelHas(db: Db, it: Item, t: nat)
    requires Tunnel(t) in db.subs
    ensures Tunnel(t) in Cancel(db, it).subs
  {
  }

  lemma {:induction false} CancelsGone(db: Db, ys: seq<Item>, t: nat)
    requires Tunnel(t) in db.subs
    ensures Tunnel(t) in Cancels(db, ys).subs && (Tunnel(t) in ys ==> Gone(Cancels(db, ys), t))
    decreases |ys|
  {
    if ys != [] {
      var n := |ys| - 1;
      assert ys == ys[..n] + [ys[n]];
      CancelsGone(db, ys[..n], t);
      CancelHas(Cancels(db, ys[..n]), ys[n], t);
      if Tunnel(t) in ys { CancelGone(Cancels(db, ys[..n]), ys[n], t); }
    }
  }

  /** A tunnel whose grace was over is closed when the tick ends. */
  lemma ExpiredTunnelGone(db: Db, d: Db, xs: seq<Item>, ys: seq<Item>, now: int, live: Catalog, t: nat)
    requires TickOf(db, d, xs, ys, now, live) && Expired(db, Tunnel(t), now)
    ensures Gone(d, t)
  {
    ChargesStable(db, xs, now, live, Tunnel(t));
    CancelsGone(Charges(db, xs, now, live), ys, t);
  }

  /** No tick both charges or suspends an item and cancels it. */
  lemma TickNeverBoth(db: Db, d: Db, xs: seq<Item>, ys: seq<Item>, now: int, live: Catalog, it: Item)
    requires TickOf(db, d, xs, ys, now, live)
    ensures !(it in xs && it in ys)
  {
    assert it in xs ==> Due(db, it, now);
    assert it in ys ==> Expired(db, it, now);
  }

  datatype Counts = Counts(charged: nat, suspended: nat, cancelled: nat)

  datatype Report = Report(tunnels: Counts, ips: Counts, blocks: Counts)

  ghost function ChargeReport(db: Db, xs: seq<Item>, now: int, live: Catalog, k: Kind): Counts {
    Counts(Tally(db, xs, now, live, k, Charged), Tally(db, xs, now, live, k, SuspendedNow), 0)
  }

  ghost function TickReport(db: Db, xs: seq<Item>, ys: seq<Item>, now: int, live: Catalog, k: Kind): Counts {
    ChargeReport(db, xs, now, live, k).(cancelled := KindCount(ys, k))
  }
}

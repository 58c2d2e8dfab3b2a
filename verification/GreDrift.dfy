/** GRE drift (packages/provisioning/src/gre-drift.ts) against the agent's kernel links and static
    routes (gateway-agent/internal/server/handlers_gre.go). */
module GreDrift {
  import opened Common

  type PeerId = nat

  /** A route's destination: the addresses [net, net + size). */
  datatype Cidr = Cidr(net: nat, size: nat)

  /** One gre-<peerId> interface with its static routes. */
  datatype Link = Link(remote: nat, routes: set<Cidr>)

  type Links = map<PeerId, Link>

  /** An active GRE tunnel's row: its endpoint, its single addresses and its blocks. */
  datatype Row = Row(remote: nat, singles: set<nat>, blocks: set<Cidr>)

  type Rows = map<PeerId, Row>

  function Hosts(s: set<nat>): (cs: set<Cidr>)
    ensures forall c :: c in cs <==> c.size == 1 && c.net in s
  {
    set a | a in s :: Cidr(a, 1)
  }

  function Members(r: Row): set<nat> {
    set c, a | c in r.blocks && a in Interval(c.net, c.size) :: a
  }

  lemma MembersAre(r: Row, a: nat)
    ensures a in Members(r) <==> Covers(r.blocks, a)
  {
    if Covers(r.blocks, a) {
      var c :| c in r.blocks && c.net <= a < c.net + c.size;
      assert a in Interval(c.net, c.size);
    }
  }

  /** What drift compares with: a /32 for each single, one CIDR for each block. */
  function Want(r: Row): set<Cidr> {
    Hosts(r.singles) + r.blocks
  }

  /** What activation pushes: a /32 for every address, block members included, and the blocks. */
  function Push(r: Row): set<Cidr> {
    Hosts(r.singles + Members(r)) + r.blocks
  }

  ghost predicate Covers(cs: set<Cidr>, a: nat) {
    exists c :: c in cs && c.net <= a < c.net + c.size
  }

  /** The row's addresses. */
  ghost predicate Has(r: Row, a: nat) {
    a in r.singles || a in Members(r)
  }

  lemma HostsCover(s: set<nat>, a: nat)
    ensures Covers(Hosts(s), a) <==> a in s
  {
    if a in s { assert Cidr(a, 1) in Hosts(s); }
  }

  lemma UnionCovers(cs: set<Cidr>, ds: set<Cidr>, a: nat)
    ensures Covers(cs + ds, a) <==> Covers(cs, a) || Covers(ds, a)
  {
    if Covers(cs, a) { var c :| c in cs && c.net <= a < c.net + c.size; assert c in cs + ds; }
    if Covers(ds, a) { var c :| c in ds && c.net <= a < c.net + c.size; assert c in cs + ds; }
  }

  /** Both lists denote the row's addresses. */
  lemma ListsDenote(r: Row, a: nat)
    ensures Covers(Want(r), a) <==> Has(r, a)
    ensures Covers(Push(r), a) <==> Has(r, a)
  {
    HostsCover(r.singles, a);
    HostsCover(r.singles + Members(r), a);
    UnionCovers(Hosts(r.singles), r.blocks, a);
    UnionCovers(Hosts(r.singles + Members(r)), r.blocks, a);
    MembersAre(r, a);
  }

  // ----- the agent -----

  /** The kernel has one route per destination: adding one that any link has fails. */
  predicate Taken(links: Links, c: Cidr) {
    exists j :: j in links && c in links[j].routes
  }

  predicate AnyTaken(links: Links, cs: set<Cidr>) {
    exists c :: c in cs && Taken(links, c)
  }

  /** Creation is all or nothing. */
  function Created(links: Links, id: PeerId, remote: nat, cs: set<Cidr>): Option<Links> {
    if id in links || AnyTaken(links, cs) then None else Some(links[id := Link(remote, cs)])
  }

  /** A successful patch replaces what it names. */
  function Patched(links: Links, id: PeerId, remote: Option<nat>, cs: Option<set<Cidr>>): Option<Links> {
    if id !in links then None else
    var l := links[id].(remote := if remote.Some? then remote.value else links[id].remote);
    if cs.None? then Some(links[id := l]) else
    if AnyTaken(links, cs.value - l.routes) then None else Some(links[id := l.(routes := cs.value)])
  }

  // ----- one pass -----

  /** What one tunnel's turn does: reactivate, leave alone, or patch what differs. */
  function Fix(links: Links, id: PeerId, r: Row): Option<Links> {
    if id !in links then Created(links, id, r.remote, Push(r)) else
    var l := links[id];
    var ipsChanged, remoteChanged := l.routes != Want(r), l.remote != r.remote;
    if !ipsChanged && !remoteChanged then Some(links) else
    Patched(links, id, if remoteChanged then Some(r.remote) else None, if ipsChanged then Some(Want(r)) else None)
  }

  function Fixes(links: Links, db: Rows, order: seq<PeerId>): Option<Links>
    requires forall id :: id in order ==> id in db
    decreases |order|
  {
    if order == [] then Some(links) else
    var n := |order| - 1;
    match Fixes(links, db, order[..n])
    case None => None
    case Some(l) => Fix(l, order[n], db[order[n]])
  }

  function Sweep(links: Links, db: Rows): Links {
    map id | id in links && id in db :: links[id]
  }

  /** A pass whose agent calls all succeed; None when one fails. */
  function Pass(links: Links, db: Rows, order: seq<PeerId>): Option<Links>
    requires forall id :: id in order ==> id in db
  {
    match Fixes(links, db, order)
    case None => None
    case Some(l) => Some(Sweep(l, db))
  }

  /** The order the query happened to return. */
  ghost predicate OrderOf(db: Rows, order: seq<PeerId>) {
    Distinct(order) && forall id :: id in order <==> id in db
  }

  /** The link a tunnel has after its turn. */
  function Target(links: Links, id: PeerId, r: Row): Link {
    Link(r.remote, if id in links then Want(r) else Push(r))
  }

  /** The routes its turn has to add. */
  function New(links: Links, id: PeerId, r: Row): set<Cidr> {
    if id in links then Want(r) - links[id].routes else Push(r)
  }

  lemma FixIs(links: Links, id: PeerId, r: Row)
    ensures Fix(links, id, r) ==
            if AnyTaken(links, New(links, id, r)) then None else Some(links[id := Target(links, id, r)])
  {
    if id in links {
      assert links[id := links[id]] == links;
      assert links[id].routes == Want(r) ==> New(links, id, r) == {};
    }
  }

  /** After the turns in `order`: those tunnels are at their targets, every other link is as before. */
  ghost predicate Turned(links: Links, l: Links, db: Rows, order: seq<PeerId>) {
    && (forall id :: id in l <==> id in links || id in order)
    && (forall id :: id in order ==> id in db && l[id] == Target(links, id, db[id]))
    && (forall id :: id in links && id !in order ==> l[id] == links[id])
  }

  lemma TurnedSnoc(links: Links, l: Links, db: Rows, order: seq<PeerId>, id: PeerId, t: Link)
    requires Turned(links, l, db, order) && id !in order && id in db && t == Target(links, id, db[id])
    ensures Turned(links, l[id := t], db, order + [id])
  {
  }

  lemma {:induction false} FixesTurn(links: Links, db: Rows, order: seq<PeerId>)
    requires Distinct(order) && (forall id :: id in order ==> id in db) && Fixes(links, db, order).Some?
    ensures Turned(links, Fixes(links, db, order).value, db, order)
    decreases |order|
  {
    if order != [] {
      var n := |order| - 1;
      var id := order[n];
      assert order == order[..n] + [id];
      FixesTurn(links, db, order[..n]);
      var l := Fixes(links, db, order[..n]).value;
      FixIs(l, id, db[id]);
      assert id in l <==> id in links;
      TurnedSnoc(links, l, db, order[..n], id, Target(links, id, db[id]));
    }
  }

  /** After one successful pass from any links, in any order: exactly the active tunnels have links,
      with the stored remote, and each link's routes denote exactly its tunnel's addresses. */
  lemma PassServes(links: Links, db: Rows, order: seq<PeerId>, l: Links)
    requires OrderOf(db, order) && Pass(links, db, order) == Some(l)
    ensures l.Keys == db.Keys
    ensures forall id :: id in db ==> l[id] == Target(links, id, db[id]) && l[id].remote == db[id].remote
    ensures forall id, a :: id in db ==> (Covers(l[id].routes, a) <==> Has(db[id], a))
  {
    FixesTurn(links, db, order);
    forall id, a | id in db ensures Covers(l[id].routes, a) <==> Has(db[id], a) {
      assert l[id] == Target(links, id, db[id]);
      ListsDenote(db[id], a);
    }
  }

  /** Every link has the remote and the routes drift compares with. */
  ghost predicate Settled(l: Links, db: Rows) {
    l.Keys == db.Keys && forall id :: id in db ==> l[id] == Link(db[id].remote, Want(db[id]))
  }

  /** What a successful pass leaves: at most the extra /32s of block members. */
  ghost predicate Nearly(l: Links, db: Rows) {
    l.Keys == db.Keys && forall id :: id in db ==> l[id].remote == db[id].remote && Want(db[id]) <= l[id].routes
  }

  lemma TurnNearly(links: Links, db: Rows, id: PeerId, order: seq<PeerId>, l: Links)
    requires Nearly(links, db) && id in db && Turned(links, l, db, order) && id !in order
    ensures Fix(l, id, db[id]) == Some(l[id := Link(db[id].remote, Want(db[id]))])
  {
    assert l[id] == links[id];
    FixIs(l, id, db[id]);
    assert New(l, id, db[id]) == {};
  }

  lemma {:induction false} FixesNearly(links: Links, db: Rows, order: seq<PeerId>)
    requires Nearly(links, db) && Distinct(order) && (forall id :: id in order ==> id in db)
    ensures Fixes(links, db, order).Some?
    decreases |order|
  {
    if order != [] {
      var n := |order| - 1;
      assert order == order[..n] + [order[n]];
      FixesNearly(links, db, order[..n]);
      FixesTurn(links, db, order[..n]);
      TurnNearly(links, db, order[n], order[..n], Fixes(links, db, order[..n]).value);
    }
  }

  /** A second pass cannot fail, and removes the extra /32s. */
  lemma SecondPassSettles(links: Links, db: Rows, order: seq<PeerId>, l: Links, again: seq<PeerId>)
    requires OrderOf(db, order) && Pass(links, db, order) == Some(l) && OrderOf(db, again)
    ensures Pass(l, db, again).Some? && Settled(Pass(l, db, again).value, db)
  {
    PassServes(links, db, order, l);
    FixesNearly(l, db, again);
    PassServes(l, db, again, Pass(l, db, again).value);
  }

  /** From then on passes change nothing. */
  lemma SettledStays(l: Links, db: Rows, order: seq<PeerId>)
    requires Settled(l, db) && OrderOf(db, order)
    ensures Pass(l, db, order) == Some(l)
  {
    FixesNearly(l, db, order);
    PassServes(l, db, order, Pass(l, db, order).value);
    var d := Pass(l, db, order).value;
    assert forall id :: id in db ==> d[id] == l[id];
    assert d == l;
  }

  // ----- when a pass succeeds -----

  /** No route that a tunnel's turn must add is on another link. */
  ghost predicate Unclaimed(links: Links, db: Rows) {
    forall id :: id in db ==> !AnyTaken(links, New(links, id, db[id]))
  }

  /** Different tunnels have different addresses, hence different routes. */
  ghost predicate RowsApart(db: Rows) {
    forall i, j :: i in db && j in db && i != j ==> Push(db[i]) !! Push(db[j])
  }

  lemma WantInPush(r: Row)
    ensures Want(r) <= Push(r)
  {
  }

  lemma TurnUnclaimed(links: Links, db: Rows, id: PeerId, order: seq<PeerId>, l: Links)
    requires Unclaimed(links, db) && RowsApart(db) && id in db && Turned(links, l, db, order) && id !in order
    ensures !AnyTaken(l, New(l, id, db[id]))
  {
    assert New(l, id, db[id]) == New(links, id, db[id]);
    WantInPush(db[id]);
    forall c | c in New(l, id, db[id]) ensures !Taken(l, c) {
      assert !Taken(links, c);
      forall j | j in l ensures c !in l[j].routes {
        if j in order {
          WantInPush(db[j]);
          assert l[j].routes <= Push(db[j]) && c in Push(db[id]);
        }
      }
    }
  }

  lemma {:induction false} FixesUnclaimed(links: Links, db: Rows, order: seq<PeerId>)
    requires Unclaimed(links, db) && RowsApart(db) && Distinct(order) && (forall id :: id in order ==> id in db)
    ensures Fixes(links, db, order).Some?
    decreases |order|
  {
    if order != [] {
      var n := |order| - 1;
      assert order == order[..n] + [order[n]];
      FixesUnclaimed(links, db, order[..n]);
      FixesTurn(links, db, order[..n]);
      var l := Fixes(links, db, order[..n]).value;
      TurnUnclaimed(links, db, order[n], order[..n], l);
      FixIs(l, order[n], db[order[n]]);
    }
  }

  lemma {:induction false} FailsEarly(links: Links, db: Rows, id: PeerId, rest: seq<PeerId>)
    requires id in db && (forall j :: j in rest ==> j in db) && Fix(links, id, db[id]).None?
    ensures (forall j :: j in [id] + rest ==> j in db) && Fixes(links, db, [id] + rest).None?
    decreases |rest|
  {
    var order := [id] + rest;
    var n := |order| - 1;
    if rest == [] {
      assert order[..n] == [];
    } else {
      assert order[..n] == [id] + rest[..n - 1];
      FailsEarly(links, db, id, rest[..n - 1]);
    }
  }

  /** An enumeration of a set exists. */
  lemma {:induction false} SomeOrder(s: set<PeerId>) returns (xs: seq<PeerId>)
    ensures Distinct(xs) && forall x :: x in xs <==> x in s
    decreases s
  {
    if s == {} { return []; }
    var x :| x in s;
    var rest := SomeOrder(s - {x});
    xs := [x] + rest;
  }

  /** A claimed route fails the pass that reaches its tunnel first. */
  lemma ClaimedFails(links: Links, db: Rows, id: PeerId) returns (order: seq<PeerId>)
    requires id in db && AnyTaken(links, New(links, id, db[id]))
    ensures OrderOf(db, order) && Pass(links, db, order).None?
  {
    FixIs(links, id, db[id]);
    var rest := SomeOrder(db.Keys - {id});
    FailsEarly(links, db, id, rest);
    order := [id] + rest;
  }

  /** A pass succeeds in every order exactly when no route to be added is on another link. */
  lemma SucceedsInEveryOrderIff(links: Links, db: Rows)
    requires RowsApart(db)
    ensures (forall order :: OrderOf(db, order) ==> Pass(links, db, order).Some?) <==> Unclaimed(links, db)
  {
    if Unclaimed(links, db) {
      forall order | OrderOf(db, order) ensures Pass(links, db, order).Some? { FixesUnclaimed(links, db, order); }
    } else {
      var id :| id in db && AnyTaken(links, New(links, id, db[id]));
      var order := ClaimedFails(links, db, id);
    }
  }

  // ----- passes in which calls may fail -----

  /** What one turn leaves, whether its call succeeds or not.  A failed creation is rolled back; a failed
      patch has changed the endpoint and may have added wanted routes that nobody had. */
  ghost predicate Tried(links: Links, id: PeerId, r: Row, l: Links) {
    if Fix(links, id, r).Some? then l == Fix(links, id, r).value else
    if id !in links then l == links else
    && id in l && l == links[id := l[id]] && l[id].remote == r.remote
    && links[id].routes <= l[id].routes
    && forall c :: c in l[id].routes && c !in links[id].routes ==> c in Want(r) && !Taken(links, c)
  }

  /** The states between the turns of a pass. */
  ghost predicate Turns(ss: seq<Links>, db: Rows, order: seq<PeerId>) {
    && |ss| == |order| + 1
    && forall i :: 0 <= i < |order| ==> order[i] in db && Tried(ss[i], order[i], db[order[i]], ss[i + 1])
  }

  /** A pass from `links` to `l`, with any number of failing calls. */
  ghost predicate Passed(links: Links, db: Rows, order: seq<PeerId>, l: Links) {
    OrderOf(db, order) && exists ss :: Turns(ss, db, order) && ss[0] == links && l == Sweep(ss[|order|], db)
  }

  /** A link after its turn: at its target, or as before with the new endpoint and some wanted routes. */
  ghost predicate TriedLink(links: Links, id: PeerId, r: Row, l: Links) {
    && (id in links ==> id in l)
    && (id in l ==>
          || l[id] == Target(links, id, r)
          || (id in links && l[id].remote == r.remote &&
              links[id].routes <= l[id].routes <= links[id].routes + Want(r)))
  }

  lemma TriedIs(links: Links, id: PeerId, r: Row, l: Links)
    requires Tried(links, id, r, l)
    ensures TriedLink(links, id, r, l)
    ensures forall j :: j != id ==> (j in l <==> j in links) && (j in links ==> l[j] == links[j])
  {
    FixIs(links, id, r);
  }

  /** The link of a tunnel before and after its turn. */
  lemma {:induction false} TurnsEach(ss: seq<Links>, db: Rows, order: seq<PeerId>, id: PeerId)
    requires Turns(ss, db, order) && Distinct(order)
    ensures id in order ==> id in db && TriedLink(ss[0], id, db[id], ss[|order|])
    ensures id !in order ==> (id in ss[|order|] <==> id in ss[0]) && (id in ss[0] ==> ss[|order|][id] == ss[0][id])
    decreases |order|
  {
    if order != [] {
      var n := |order| - 1;
      assert order == order[..n] + [order[n]];
      TurnsEach(ss[..n + 1], db, order[..n], id);
      TriedIs(ss[n], order[n], db[order[n]], ss[n + 1]);
    }
  }

  /** After a pass with any failures: orphans are gone, no link is lost, and every link left is at its
      target or as before, with the stored endpoint and possibly some of its wanted routes added. */
  lemma PassedEach(links: Links, db: Rows, order: seq<PeerId>, l: Links, id: PeerId)
    requires Passed(links, db, order, l)
    ensures id in l ==> id in db
    ensures id in db ==> TriedLink(links, id, db[id], l)
  {
    var ss :| Turns(ss, db, order) && ss[0] == links && l == Sweep(ss[|order|], db);
    TurnsEach(ss, db, order, id);
  }

  /** Two tunnels that swapped their only destinations, while the kernel still has the old routes. */
  ghost predicate Swapped(links: Links, db: Rows, i: PeerId, j: PeerId, p: Cidr, q: Cidr) {
    && i != j && p != q && i in db && j in db && i in links && j in links
    && links[i].routes == {p} == Want(db[j]) && links[j].routes == {q} == Want(db[i])
  }

  /** Both patches fail, at their first route: a patch adds before it removes. */
  lemma SwapFails(links: Links, db: Rows, i: PeerId, j: PeerId, p: Cidr, q: Cidr)
    requires Swapped(links, db, i, j, p, q)
    ensures Fix(links, i, db[i]).None? && Fix(links, j, db[j]).None? && Taken(links, p) && Taken(links, q)
  {
    assert Taken(links, p) && Taken(links, q);
    assert q in New(links, i, db[i]) && p in New(links, j, db[j]);
    FixIs(links, i, db[i]);
    FixIs(links, j, db[j]);
  }

  lemma SwapTurn(links: Links, db: Rows, i: PeerId, j: PeerId, p: Cidr, q: Cidr, id: PeerId, l: Links)
    requires Swapped(links, db, i, j, p, q) && id in db && Tried(links, id, db[id], l)
    ensures Swapped(l, db, i, j, p, q)
  {
    SwapFails(links, db, i, j, p, q);
    TriedIs(links, id, db[id], l);
    if id == i { assert l[i].routes == {p}; }
    if id == j { assert l[j].routes == {q}; }
  }

  lemma {:induction false} SwapTurns(ss: seq<Links>, db: Rows, order: seq<PeerId>, i: PeerId, j: PeerId, p: Cidr,
                                     q: Cidr)
    requires Turns(ss, db, order) && Swapped(ss[0], db, i, j, p, q)
    ensures Swapped(ss[|order|], db, i, j, p, q)
    decreases |order|
  {
    if order != [] {
      var n := |order| - 1;
      SwapTurns(ss[..n + 1], db, order[..n], i, j, p, q);
      SwapTurn(ss[n], db, i, j, p, q, order[n], ss[n + 1]);
    }
  }

  lemma SwapStuck(links: Links, db: Rows, order: seq<PeerId>, l: Links, i: PeerId, j: PeerId, p: Cidr, q: Cidr)
    requires Swapped(links, db, i, j, p, q) && Passed(links, db, order, l)
    ensures Swapped(l, db, i, j, p, q)
  {
    var ss :| Turns(ss, db, order) && ss[0] == links && l == Sweep(ss[|order|], db);
    SwapTurns(ss, db, order, i, j, p, q);
  }

  /** Two tunnels that swapped addresses block each other for good: over every sequence of passes, in
      any orders, both keep the other's route. */
  lemma {:induction false} SwapStuckForever(ls: seq<Links>, db: Rows, orders: seq<seq<PeerId>>,
                                            i: PeerId, j: PeerId, p: Cidr, q: Cidr)
    requires |ls| == |orders| + 1 && forall k :: 0 <= k < |orders| ==> Passed(ls[k], db, orders[k], ls[k + 1])
    requires Swapped(ls[0], db, i, j, p, q)
    ensures Swapped(ls[|orders|], db, i, j, p, q)
    decreases |orders|
  {
    if orders != [] {
      var n := |orders| - 1;
      SwapStuckForever(ls[..n + 1], db, orders[..n], i, j, p, q);
      SwapStuck(ls[n], db, orders[n], ls[n + 1], i, j, p, q);
    }
  }

  /** Such a pair: each of two tunnels has the other's single address. */
  lemma SwapExample()
    ensures var db: Rows := map[0 := Row(7, {2}, {}), 1 := Row(8, {1}, {})];
            var links: Links := map[0 := Link(7, {Cidr(1, 1)}), 1 := Link(8, {Cidr(2, 1)})];
            Swapped(links, db, 0, 1, Cidr(1, 1), Cidr(2, 1))
  {
    assert Want(Row(7, {2}, {})) == {Cidr(2, 1)};
    assert Want(Row(8, {1}, {})) == {Cidr(1, 1)};
  }

  // ----- the agent's handlers and the drift loop -----

  /** links with these routes added to one link. */
  function Added(links: Links, id: PeerId, cs: set<Cidr>): Links
    requires id in links
  {
    links[id := links[id].(routes := links[id].routes + cs)]
  }

  lemma AddedTaken(links: Links, id: PeerId, cs: set<Cidr>, c: Cidr)
    requires id in links && c !in cs
    ensures Taken(Added(links, id, cs), c) <==> Taken(links, c)
  {
    var l := Added(links, id, cs);
    if Taken(links, c) { var j :| j in links && c in links[j].routes; assert c in l[j].routes; }
    if Taken(l, c) { var j :| j in l && c in l[j].routes; assert c in links[j].routes; }
  }

  lemma AddedNone(links: Links, id: PeerId)
    requires id in links
    ensures Added(links, id, {}) == links
  {
    assert links[id].routes + {} == links[id].routes;
  }

  lemma AddedMore(links: Links, id: PeerId, cs: set<Cidr>, c: Cidr)
    requires id in links
    ensures Added(Added(links, id, cs), id, {c}) == Added(links, id, cs + {c})
  {
    assert links[id].routes + cs + {c} == links[id].routes + (cs + {c});
  }

  /** What a failed patch leaves: the new endpoint, and some wanted routes that nobody had. */
  ghost predicate PatchFailed(links: Links, id: PeerId, remote: Option<nat>, cs: Option<set<Cidr>>, l: Links) {
    if id !in links then l == links else
    && cs.Some? && id in l && l == links[id := l[id]]
    && l[id].remote == (if remote.Some? then remote.value else links[id].remote)
    && links[id].routes <= l[id].routes
    && forall c :: c in l[id].routes && c !in links[id].routes ==> c in cs.value && !Taken(links, c)
  }

  class GreAgent {
    var links: Links

    /** ip route add. */
    method RouteAdd(id: PeerId, c: Cidr) returns (ok: bool)
      requires id in links
      modifies this
      ensures ok <==> !Taken(old(links), c)
      ensures links == if ok then Added(old(links), id, {c}) else old(links)
    {
      if exists j :: j in links && c in links[j].routes { return false; }
      links := links[id := links[id].(routes := links[id].routes + {c})];
      return true;
    }

    /** Add the routes one by one, stopping at the first failure. */
    method AddRoutes(id: PeerId, cs: set<Cidr>) returns (ok: bool, ghost done: set<Cidr>)
      requires id in links
      modifies this
      ensures done <= cs && links == Added(old(links), id, done) && forall c :: c in done ==> !Taken(old(links), c)
      ensures ok ==> done == cs && !AnyTaken(old(links), cs)
      ensures !ok ==> AnyTaken(old(links), cs)
    {
      var xs := Enumerate(cs);
      done := {};
      ghost var before := links;
      AddedNone(links, id);
      for i := 0 to |xs|
        invariant done == (set k | 0 <= k < i :: xs[k]) && id in links && links == Added(before, id, done)
        invariant forall c :: c in done ==> !Taken(before, c)
      {
        assert xs[i] !in done;
        AddedTaken(before, id, done, xs[i]);
        assert xs[i] in xs;
        var added := RouteAdd(id, xs[i]);
        if !added {
          assert xs[i] in cs && Taken(before, xs[i]);
          return false, done;
        }
        AddedMore(before, id, done, xs[i]);
        done := done + {xs[i]};
      }
      assert done == cs;
      return true, done;
    }

    /** handleCreateGrePeer: a failed route rolls the interface back. */
    method CreateGrePeer(id: PeerId, remote: nat, cs: set<Cidr>) returns (ok: bool)
      modifies this
      ensures ok <==> Created(old(links), id, remote, cs).Some?
      ensures links == if ok then Created(old(links), id, remote, cs).value else old(links)
    {
      if id in links { return false; }
      ghost var before := links;
      links := links[id := Link(remote, {})];
      ghost var mid := links;
      SameTaken(before, mid, id, cs);
      ghost var done;
      ok, done := AddRoutes(id, cs);
      if ok {
        assert {} + cs == cs;
        assert links == before[id := Link(remote, cs)];
      } else {
        links := links - {id};
        assert links == before;
      }
    }

    /** The route half of handlePatchGrePeer: add what is missing, then remove what is not desired. */
    method PatchRoutes(id: PeerId, desired: set<Cidr>) returns (ok: bool, ghost done: set<Cidr>)
      requires id in links
      modifies this
      ensures ok <==> !AnyTaken(old(links), desired - old(links)[id].routes)
      ensures done <= desired && (ok ==> links == old(links)[id := old(links)[id].(routes := desired)])
      ensures !ok ==> links == Added(old(links), id, done) && forall c :: c in done ==> !Taken(old(links), c)
    {
      var cur := links[id].routes;
      ghost var before := links;
      ok, done := AddRoutes(id, desired - cur);
      if !ok { return; }
      var stale := Enumerate(cur - desired);
      for i := 0 to |stale|
        invariant id in links && links == before[id := links[id]] && links[id].remote == before[id].remote
        invariant links[id].routes == cur + desired - (set k | 0 <= k < i :: stale[k])
      {
        links := links[id := links[id].(routes := links[id].routes - {stale[i]})];
      }
      assert (set k | 0 <= k < |stale| :: stale[k]) == cur - desired by {
        assert forall k :: 0 <= k < |stale| ==> stale[k] in stale;
      }
      assert links[id].routes == desired;
    }

    /** handlePatchGrePeer: the endpoint first, then the routes; a failed route leaves the rest as is. */
    method PatchGrePeer(id: PeerId, remote: Option<nat>, cs: Option<set<Cidr>>) returns (ok: bool)
      modifies this
      ensures ok <==> Patched(old(links), id, remote, cs).Some?
      ensures ok ==> links == Patched(old(links), id, remote, cs).value
      ensures !ok ==> PatchFailed(old(links), id, remote, cs, links)
    {
      if id !in links { return false; }
      ghost var before := links;
      if remote.Some? { links := links[id := links[id].(remote := remote.value)]; }
      ghost var mid := links;
      if cs.None? {
        assert before[id := before[id]] == before;
        return true;
      }
      SameTaken(before, mid, id, cs.value - before[id].routes);
      ghost var done;
      ok, done := PatchRoutes(id, cs.value);
    }

    method DeleteGrePeer(id: PeerId)
      modifies this
      ensures links == old(links) - {id}
    {
      links := links - {id};
    }

    /** One tunnel's turn in the drift loop. */
    method FixTunnel(id: PeerId, r: Row) returns (ok: bool)
      modifies this
      ensures ok <==> Fix(old(links), id, r).Some?
      ensures Tried(old(links), id, r, links)
    {
      if id !in links {
        ok := CreateGrePeer(id, r.remote, Push(r));
        return;
      }
      var ipsChanged := links[id].routes != Want(r);
      var remoteChanged := links[id].remote != r.remote;
      if !ipsChanged && !remoteChanged { return true; }
      ok := PatchGrePeer(id, if remoteChanged then Some(r.remote) else None,
                         if ipsChanged then Some(Want(r)) else None);
    }

    method SweepOrphans(db: Rows)
      modifies this
      ensures links == Sweep(old(links), db)
    {
      var gone := Enumerate(links.Keys - db.Keys);
      ghost var before := links;
      for i := 0 to |gone|
        invariant forall id :: id in links <==> id in before && !(exists k :: 0 <= k < i && gone[k] == id)
        invariant forall id :: id in links ==> links[id] == before[id]
      {
        DeleteGrePeer(gone[i]);
      }
      forall id ensures id in links <==> id in before && id in db {
        if id in before && id !in db { assert id in gone; }
        if exists k :: 0 <= k < |gone| && gone[k] == id { assert id in gone; }
      }
      assert links == Sweep(before, db);
    }

    /** The loop over the tunnels: errors are collected and the loop goes on. */
    method FixAll(db: Rows, rows: seq<PeerId>) returns (errors: nat, ghost ss: seq<Links>)
      requires forall id :: id in rows ==> id in db
      modifies this
      ensures Turns(ss, db, rows) && ss[0] == old(links) && ss[|rows|] == links
      ensures errors == 0 ==> Fixes(old(links), db, rows) == Some(links)
      ensures errors > 0 ==> Fixes(old(links), db, rows).None?
    {
      ghost var before := links;
      ss := [links];
      errors := 0;
      assert forall i :: 0 <= i < |rows| ==> rows[i] in rows;
      for i := 0 to |rows|
        invariant Turns(ss, db, rows[..i]) && ss[0] == before && ss[i] == links
        invariant errors == 0 ==> Fixes(before, db, rows[..i]) == Some(links)
        invariant errors > 0 ==> Fixes(before, db, rows[..i]).None?
      {
        assert rows[..i + 1] == rows[..i] + [rows[i]];
        FixesSnoc(before, db, rows[..i], rows[i]);
        var ok := FixTunnel(rows[i], db[rows[i]]);
        TurnsSnoc(ss, db, rows[..i], rows[i], links);
        ss := ss + [links];
        if !ok { errors := errors + 1; }
      }
      assert rows[..|rows|] == rows;
    }

    /** reconcileGreOnGateway. */
    method Reconcile(db: Rows) returns (errors: nat, ghost order: seq<PeerId>)
      modifies this
      ensures Passed(old(links), db, order, links)
      ensures errors == 0 <==> Pass(old(links), db, order).Some?
      ensures errors == 0 ==> links == Pass(old(links), db, order).value
    {
      var rows := Enumerate(db.Keys);
      order := rows;
      ghost var ss;
      errors, ss := FixAll(db, rows);
      SweepOrphans(db);
    }
  }

  lemma FixesSnoc(links: Links, db: Rows, order: seq<PeerId>, id: PeerId)
    requires (forall j :: j in order ==> j in db) && id in db
    ensures Fixes(links, db, order + [id]) ==
            if Fixes(links, db, order).None? then None else Fix(Fixes(links, db, order).value, id, db[id])
  {
    assert (order + [id])[..|order|] == order;
  }

  lemma TurnsSnoc(ss: seq<Links>, db: Rows, order: seq<PeerId>, id: PeerId, l: Links)
    requires Turns(ss, db, order) && id in db && Tried(ss[|order|], id, db[id], l)
    ensures Turns(ss + [l], db, order + [id])
  {
  }

  lemma SameTaken(links: Links, l: Links, id: PeerId, cs: set<Cidr>)
    requires id in l && l == links[id := l[id]]
    requires l[id].routes == if id in links then links[id].routes else {}
    ensures AnyTaken(l, cs) <==> AnyTaken(links, cs)
    ensures forall c :: Taken(l, c) <==> Taken(links, c)
  {
    forall c ensures Taken(l, c) <==> Taken(links, c) {
      if Taken(l, c) { var j :| j in l && c in l[j].routes; assert j in links && c in links[j].routes; }
      if Taken(links, c) { var j :| j in links && c in links[j].routes; assert c in l[j].routes; }
    }
  }
}

/** From the tables to the GRE links: the rows that GRE drift reads, and what a pass does with them
    (the query of packages/provisioning/src/gre-drift.ts). */
module GreGrouping {
  import opened Common
  import opened Ledger
  import opened Tables
  import opened Placement
  import opened Runs
  import opened Grouping
  import GreDrift

  /** The columns of a GRE tunnel on this gateway. */
  datatype Gre = Gre(id: GreDrift.PeerId, remote: nat)

  /** One row of the query: singles as /32, one CIDR per block with an attached member. */
  ghost function RowOf(db: Db, t: nat, remote: nat): GreDrift.Row {
    GreDrift.Row(remote,
                 set a | a in db.seats && Attached(db, t, a) && db.seats[a].block.None?,
                 set b | b in db.extents && HasMember(db, t, b) :: GreDrift.Cidr(db.extents[b].net, db.extents[b].size))
  }

  /** Peer ids are distinct on the gateway. */
  ghost predicate IdsApart(gre: map<nat, Gre>) {
    forall t, u :: t in gre && u in gre && gre[t].id == gre[u].id ==> t == u
  }

  ghost predicate ActiveGre(db: Db, gre: map<nat, Gre>, t: nat) {
    t in gre && Tunnel(t) in db.subs && db.subs[Tunnel(t)].status == Current
  }

  /** The rows are those of the active tunnels. */
  ghost predicate Rows(db: Db, gre: map<nat, Gre>, rows: GreDrift.Rows) {
    && (forall t :: ActiveGre(db, gre, t) ==> gre[t].id in rows && rows[gre[t].id] == RowOf(db, t, gre[t].remote))
    && (forall id :: id in rows ==> exists t :: ActiveGre(db, gre, t) && gre[t].id == id)
  }

  lemma BlockOfRow(db: Db, t: nat, remote: nat, c: GreDrift.Cidr) returns (b: nat)
    requires Sound(db) && c in RowOf(db, t, remote).blocks
    ensures b in db.extents && HasMember(db, t, b) && c == GreDrift.Cidr(db.extents[b].net, db.extents[b].size)
  {
    b :| b in db.extents && HasMember(db, t, b) && c == GreDrift.Cidr(db.extents[b].net, db.extents[b].size);
  }

  /** The row's addresses are the allocated addresses attached to the tunnel. */
  lemma RowHas(db: Db, t: nat, remote: nat, a: nat)
    requires Sound(db)
    ensures GreDrift.Has(RowOf(db, t, remote), a) <==> Attached(db, t, a)
  {
    var r := RowOf(db, t, remote);
    GreDrift.MembersAre(r, a);
    if a in GreDrift.Members(r) {
      var c :| c in r.blocks && c.net <= a < c.net + c.size;
      var b := BlockOfRow(db, t, remote, c);
      BlockRowAttached(db, t, b, a);
    }
    if Attached(db, t, a) && db.seats[a].block.Some? {
      var b := db.seats[a].block.value;
      assert SeatOk(db, a) && HasMember(db, t, b);
      assert GreDrift.Cidr(db.extents[b].net, db.extents[b].size) in r.blocks;
    }
  }

  /** Every route of a row starts at an attached address. */
  lemma PushAttached(db: Db, t: nat, remote: nat, c: GreDrift.Cidr)
    requires Sound(db) && c in GreDrift.Push(RowOf(db, t, remote))
    ensures Attached(db, t, c.net)
  {
    var r := RowOf(db, t, remote);
    if c in r.blocks {
      var b := BlockOfRow(db, t, remote, c);
      HasMemberLive(db, t, b);
      BlockBelow(db, b);
      BlockRowAttached(db, t, b, c.net);
    } else {
      assert GreDrift.Has(r, c.net);
      RowHas(db, t, remote, c.net);
    }
  }

  /** Rows of different tunnels have no route in common. */
  lemma RowsAreApart(db: Db, gre: map<nat, Gre>, rows: GreDrift.Rows)
    requires Sound(db) && IdsApart(gre) && Rows(db, gre, rows)
    ensures GreDrift.RowsApart(rows)
  {
    forall i, j | i in rows && j in rows && i != j ensures GreDrift.Push(rows[i]) !! GreDrift.Push(rows[j]) {
      var t :| ActiveGre(db, gre, t) && gre[t].id == i;
      var u :| ActiveGre(db, gre, u) && gre[u].id == j;
      forall c | c in GreDrift.Push(rows[i]) ensures c !in GreDrift.Push(rows[j]) {
        PushAttached(db, t, gre[t].remote, c);
        if c in GreDrift.Push(rows[j]) { PushAttached(db, u, gre[u].remote, c); }
      }
    }
  }

  /** End to end: after a pass without failing calls exactly the active tunnels have a link, and its routes
      denote exactly the allocated addresses attached to the tunnel. */
  lemma GrePassServes(db: Db, gre: map<nat, Gre>, rows: GreDrift.Rows, links: GreDrift.Links,
                      order: seq<GreDrift.PeerId>, l: GreDrift.Links, t: nat, a: nat)
    requires Sound(db) && IdsApart(gre) && Rows(db, gre, rows) && t in gre
    requires GreDrift.OrderOf(rows, order) && GreDrift.Pass(links, rows, order) == Some(l)
    ensures gre[t].id in l <==> ActiveGre(db, gre, t)
    ensures gre[t].id in l ==>
              l[gre[t].id].remote == gre[t].remote && (GreDrift.Covers(l[gre[t].id].routes, a) <==> Attached(db, t, a))
  {
    GreDrift.PassServes(links, rows, order, l);
    if gre[t].id in rows {
      var u :| ActiveGre(db, gre, u) && gre[u].id == gre[t].id;
      RowHas(db, t, gre[t].remote, a);
    }
  }

  /** When a pass over the database's rows succeeds in every order. */
  lemma GreSucceedsIff(db: Db, gre: map<nat, Gre>, rows: GreDrift.Rows, links: GreDrift.Links)
    requires Sound(db) && IdsApart(gre) && Rows(db, gre, rows)
    ensures (forall order :: GreDrift.OrderOf(rows, order) ==> GreDrift.Pass(links, rows, order).Some?) <==>
            GreDrift.Unclaimed(links, rows)
  {
    RowsAreApart(db, gre, rows);
    GreDrift.SucceedsInEveryOrderIff(links, rows);
  }
}

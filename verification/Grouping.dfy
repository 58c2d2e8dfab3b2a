/** From the tables to the data plane: the CIDR lists pushed for the tunnels mean exactly the
    addresses attached to them, and a drift pass carries that meaning to the gateway. */
module Grouping {
  import opened Common
  import opened Arith
  import opened Ledger
  import opened Tables
  import opened Placement
  import opened Runs
  import Agent
  import Coherence
  import Drift
  import Scheduler
  import Plans = SalePlans

  /** The addresses a prefix stands for (section 3.1 of RFC 4632). */
  ghost predicate Denotes(p: Agent.Prefix, a: int) {
    p.len <= 32 && p.net <= a < p.net + Pow2(32 - p.len)
  }

  /** The addresses routed to a tunnel: attached and allocated. */
  ghost predicate Attached(db: Db, t: nat, a: nat) {
    a in db.seats && Ip(a) in db.subs && db.seats[a].tunnel == Some(t) && db.subs[Ip(a)].status == Current
  }

  /** First half of the query: single addresses, as /32. */
  ghost predicate SingleRow(db: Db, t: nat, p: Agent.Prefix) {
    Attached(db, t, p.net) && db.seats[p.net].block.None? && p.len == 32
  }

  ghost predicate HasMember(db: Db, t: nat, b: nat) {
    exists a :: Attached(db, t, a) && db.seats[a].block == Some(b)
  }

  /** p is the extent in prefix notation. */
  ghost predicate IsCidr(x: Extent, p: Agent.Prefix) {
    p.net == x.net && p.len < 32 && Pow2(32 - p.len) == x.size
  }

  lemma OneCidr(x: Extent, p: Agent.Prefix, q: Agent.Prefix)
    requires IsCidr(x, p) && IsCidr(x, q)
    ensures p == q
  {
    Plans.Pow2Order(32 - p.len, 32 - q.len);
    Plans.Pow2Order(32 - q.len, 32 - p.len);
  }

  /** Second half: one row per block that has an attached, allocated member. */
  ghost predicate BlockRow(db: Db, t: nat, b: nat, p: Agent.Prefix) {
    b in db.extents && HasMember(db, t, b) && IsCidr(db.extents[b], p)
  }

  ghost predicate Listed(db: Db, t: nat, p: Agent.Prefix) {
    SingleRow(db, t, p) || exists b :: BlockRow(db, t, b, p)
  }

  lemma SeatBelow(db: Db, a: nat)
    requires Sound(db) && a in db.seats
    ensures a < Plans.TWO32 && Ip(a) in db.subs
  {
    assert SeatOk(db, a);
    assert Plans.PoolOk(RangeOf(db.pools[db.seats[a].pool]));
  }

  lemma BlockBelow(db: Db, b: nat)
    requires Sound(db) && LiveBlock(db, b)
    ensures db.extents[b].net < Plans.TWO32 && db.extents[b].size in Plans.BLOCK_SIZES
  {
    assert BlockOk(db, b);
    SeatBelow(db, db.extents[b].net);
  }

  lemma Pow2Zero()
    ensures Pow2(32 - 32) == 1
  {
  }

  lemma BlockRowAttached(db: Db, t: nat, b: nat, a: nat)
    requires Sound(db) && HasMember(db, t, b) && b in db.extents && InExtent(db.extents[b], a)
    ensures Attached(db, t, a)
  {
    var m :| Attached(db, t, m) && db.seats[m].block == Some(b);
    assert SeatOk(db, m);
    MembersAre(db, b);
    MembersTogether(db, b, m, a);
    assert SeatOk(db, a);
  }

  /** Grouping preserves meaning, one direction: whatever a listed prefix denotes is attached. */
  lemma ListedIsAttached(db: Db, t: nat, p: Agent.Prefix, a: nat)
    requires Sound(db) && Listed(db, t, p) && Denotes(p, a)
    ensures Attached(db, t, a)
  {
    Pow2Zero();
    if !SingleRow(db, t, p) {
      var b :| BlockRow(db, t, b, p);
      BlockRowAttached(db, t, b, a);
    }
  }

  /** The other direction: every attached address is denoted by a listed prefix. */
  lemma AttachedIsListed(db: Db, t: nat, a: nat) returns (p: Agent.Prefix)
    requires Sound(db) && Attached(db, t, a)
    ensures Listed(db, t, p) && Denotes(p, a)
  {
    SeatBelow(db, a);
    Pow2Zero();
    if db.seats[a].block.None? {
      p := Agent.Prefix(a, 32);
      assert SingleRow(db, t, p);
    } else {
      var b := db.seats[a].block.value;
      assert SeatOk(db, a);
      BlockBelow(db, b);
      p := Agent.Prefix(db.extents[b].net, Plans.PrefixOf(db.extents[b].size));
      assert IsCidr(db.extents[b], p);
      assert BlockRow(db, t, b, p);
    }
  }

  /** The list pushed for a tunnel denotes exactly the allocated addresses attached to it. */
  lemma GroupingMeans(db: Db, t: nat, a: nat)
    requires Sound(db)
    ensures (exists p :: Listed(db, t, p) && Denotes(p, a)) <==> Attached(db, t, a)
  {
    if Attached(db, t, a) {
      var p := AttachedIsListed(db, t, a);
    } else if p :| Listed(db, t, p) && Denotes(p, a) {
      ListedIsAttached(db, t, p, a);
    }
  }

  /** Lists of different tunnels denote disjoint sets. */
  lemma ListsDisjoint(db: Db, t: nat, u: nat, p: Agent.Prefix, q: Agent.Prefix, a: nat)
    requires Sound(db) && t != u && Listed(db, t, p) && Listed(db, u, q)
    ensures !(Denotes(p, a) && Denotes(q, a))
  {
    if Denotes(p, a) && Denotes(q, a) {
      ListedIsAttached(db, t, p, a);
      ListedIsAttached(db, u, q, a);
    }
  }

  // ----- from the database to the drift pass -----

  /** The columns of a WireGuard tunnel on this gateway that never change. */
  datatype Peer = Peer(key: Agent.PubKey, priv: Agent.Addr)

  /** UNIQUE(gateway_id, wg_public_key), UNIQUE(gateway_id, private_ip), and a private subnet that
      no public pool overlaps. */
  ghost predicate PeersOk(db: Db, peers: map<nat, Peer>) {
    && (forall t :: t in peers ==> peers[t].key.Key? && Tunnel(t) in db.subs)
    && (forall t, u :: t in peers && u in peers && t != u ==>
        peers[t].key != peers[u].key && peers[t].priv != peers[u].priv)
    && (forall t :: t in peers ==> peers[t].priv !in db.seats)
  }

  ghost predicate ActiveTunnel(db: Db, peers: map<nat, Peer>, t: nat) {
    t in peers && Tunnel(t) in db.subs && db.subs[Tunnel(t)].status == Current
  }

  /** The texts that the query of loadTunnelSync and of the drift pass yields for tunnel t. */
  ghost predicate ListFor(db: Db, t: nat, pubs: seq<Agent.Text>) {
    && (forall x :: x in pubs ==>
          x.Slash? && x.len <= 32 && x.addr == Agent.Network(x.addr, x.len) &&
          Listed(db, t, Agent.Prefix(x.addr, x.len)))
    && (forall p: Agent.Prefix :: Listed(db, t, p) ==> Agent.Slash(p.net, p.len) in pubs)
  }

  lemma ListPrefixes(db: Db, t: nat, pubs: seq<Agent.Text>)
    requires ListFor(db, t, pubs)
    ensures Agent.AllParse(pubs)
    ensures forall p :: p in Agent.Prefixes(pubs) <==> Listed(db, t, p)
  {
    forall p: Agent.Prefix | Listed(db, t, p) ensures p in Agent.Prefixes(pubs) {
      var x := Agent.Slash(p.net, p.len);
      assert x in pubs;
      assert Agent.Parse(x) == Some(p);
    }
  }

  /** One row of the desired-state query, for tunnel t. */
  ghost predicate RowFor(db: Db, peers: map<nat, Peer>, t: nat, w: Drift.Want) {
    ActiveTunnel(db, peers, t) && w.key == peers[t].key && w.priv == Agent.Bare(peers[t].priv) && ListFor(db, t, w.pubs)
  }

  /** The rows, in some order; `ids[i]` is the tunnel of the i-th row. */
  ghost predicate Queried(db: Db, peers: map<nat, Peer>, ts: seq<Drift.Want>, ids: seq<nat>) {
    && |ids| == |ts| && Distinct(ids)
    && (forall i :: 0 <= i < |ts| ==> RowFor(db, peers, ids[i], ts[i]))
    && (forall t :: ActiveTunnel(db, peers, t) ==> t in ids)
  }

  lemma RowParses(db: Db, peers: map<nat, Peer>, t: nat, w: Drift.Want)
    requires RowFor(db, peers, t, w)
    ensures Agent.AllParse([w.priv] + w.pubs)
    ensures forall p :: p in Agent.Allowed(w.priv, w.pubs) ==> p == Agent.Prefix(peers[t].priv, 32) || Listed(db, t, p)
    ensures Agent.Prefix(peers[t].priv, 32) in Agent.Allowed(w.priv, w.pubs)
  {
    var all := [w.priv] + w.pubs;
    assert all[0] == w.priv && Agent.Parse(all[0]) == Some(Agent.Prefix(peers[t].priv, 32));
    assert forall x :: x in all ==> x == w.priv || x in w.pubs;
  }

  lemma RowHasListed(db: Db, peers: map<nat, Peer>, t: nat, w: Drift.Want, p: Agent.Prefix)
    requires RowFor(db, peers, t, w) && Listed(db, t, p)
    ensures p in Agent.Allowed(w.priv, w.pubs)
  {
    var x := Agent.Slash(p.net, p.len);
    assert x in w.pubs;
    assert x in [w.priv] + w.pubs;
    assert Agent.Parse(x) == Some(p);
  }

  lemma ListedNetInSeats(db: Db, t: nat, p: Agent.Prefix)
    requires Sound(db) && Listed(db, t, p)
    ensures p.len <= 32 && Denotes(p, p.net) && Attached(db, t, p.net)
  {
    Pow2Zero();
    if !SingleRow(db, t, p) {
      var b :| BlockRow(db, t, b, p);
      assert p.len <= 31 && Denotes(p, p.net);
    }
    ListedIsAttached(db, t, p, p.net);
  }

  lemma RowsApart(db: Db, peers: map<nat, Peer>, t: nat, v: Drift.Want, u: nat, w: Drift.Want, p: Agent.Prefix)
    requires Sound(db) && PeersOk(db, peers) && t != u && RowFor(db, peers, t, v) && RowFor(db, peers, u, w)
    ensures !(p in Agent.Allowed(v.priv, v.pubs) && p in Agent.Allowed(w.priv, w.pubs))
  {
    RowParses(db, peers, t, v);
    RowParses(db, peers, u, w);
    if Listed(db, t, p) { ListedNetInSeats(db, t, p); }
    if Listed(db, u, p) { ListedNetInSeats(db, u, p); }
  }

  /** The database's constraints give the drift pass the input it needs. */
  lemma QueryIsDesired(db: Db, peers: map<nat, Peer>, ts: seq<Drift.Want>, ids: seq<nat>)
    requires Sound(db) && PeersOk(db, peers) && Queried(db, peers, ts, ids)
    ensures Drift.Desired(ts) && Drift.Apart(ts)
  {
    forall i | 0 <= i < |ts| ensures ts[i].key.Key? && Agent.AllParse([ts[i].priv] + ts[i].pubs) {
      RowParses(db, peers, ids[i], ts[i]);
    }
    forall i, j | 0 <= i < |ts| && 0 <= j < |ts| && i != j
      ensures ts[i].key != ts[j].key
      ensures Agent.Allowed(ts[i].priv, ts[i].pubs) !! Agent.Allowed(ts[j].priv, ts[j].pubs)
    {
      assert ids[i] != ids[j];
      forall p | p in Agent.Allowed(ts[i].priv, ts[i].pubs) ensures p !in Agent.Allowed(ts[j].priv, ts[j].pubs) {
        RowsApart(db, peers, ids[i], ts[i], ids[j], ts[j], p);
      }
    }
  }

  lemma ActiveIsQueried(db: Db, peers: map<nat, Peer>, ts: seq<Drift.Want>, ids: seq<nat>, t: nat) returns (i: nat)
    requires Queried(db, peers, ts, ids) && ActiveTunnel(db, peers, t)
    ensures i < |ts| && ids[i] == t && peers[t].key == ts[i].key && ts[i].key in Drift.KeysOf(ts)
  {
    i :| 0 <= i < |ids| && ids[i] == t;
    assert ts[i] in ts;
  }

  lemma QueriedIsActive(db: Db, peers: map<nat, Peer>, ts: seq<Drift.Want>, ids: seq<nat>, t: nat)
    requires PeersOk(db, peers) && Queried(db, peers, ts, ids) && t in peers && peers[t].key in Drift.KeysOf(ts)
    ensures ActiveTunnel(db, peers, t)
  {
    var w :| w in ts && w.key == peers[t].key;
    var i :| 0 <= i < |ts| && ts[i] == w;
    assert RowFor(db, peers, ids[i], ts[i]);
  }

  lemma AllowedMeans(db: Db, peers: map<nat, Peer>, t: nat, w: Drift.Want, a: nat)
    requires Sound(db) && RowFor(db, peers, t, w)
    ensures (exists p :: p in Agent.Allowed(w.priv, w.pubs) && Denotes(p, a)) <==>
              a == peers[t].priv || Attached(db, t, a)
  {
    RowParses(db, peers, t, w);
    Pow2Zero();
    if a == peers[t].priv {
      assert Denotes(Agent.Prefix(peers[t].priv, 32), a);
    } else if Attached(db, t, a) {
      var p := AttachedIsListed(db, t, a);
      RowHasListed(db, peers, t, w, p);
    } else if p :| p in Agent.Allowed(w.priv, w.pubs) && Denotes(p, a) {
      assert Listed(db, t, p);
      ListedIsAttached(db, t, p, a);
    }
  }

  /** From a coherent agent without suspended peers, or a freshly restarted one. */
  ghost predicate GoodStart(s: Agent.State) {
    Coherence.RealKeys(s) &&
    (s.meta == map[] || (Coherence.Coherent(s) && forall k :: k in s.meta ==> s.meta[k].status == Agent.Active))
  }

  /** Every call of a pass over these rows can succeed: stored lists parse, device keys are real keys,
      and no wanted key has metadata without a device peer and with another address. */
  ghost predicate Passable(s: Agent.State, ts: seq<Drift.Want>) {
    Agent.StoredParse(s) && Coherence.RealKeys(s) && forall i :: 0 <= i < |ts| ==> !Drift.Ghost(s, ts[i])
  }

  /** End to end, from any agent state: one pass leaves a peer for exactly the active tunnels, so none
      remains for a suspended or deleted one, whatever the agent held before. */
  lemma PassPeers(db: Db, peers: map<nat, Peer>, ts: seq<Drift.Want>, ids: seq<nat>,
                  s: Agent.State, ks: seq<Agent.PubKey>, t: nat)
    requires Sound(db) && PeersOk(db, peers) && Queried(db, peers, ts, ids) && t in peers
    requires Passable(s, ts) && Drift.Orphans(s, ts, ks)
    ensures peers[t].key in Drift.Pass(s, ts, ks).dev <==> ActiveTunnel(db, peers, t)
  {
    QueryIsDesired(db, peers, ts, ids);
    Drift.PassConverges(s, ts, ks);
    var end := Drift.Pass(s, ts, ks);
    assert Agent.Reported(end).Keys == end.dev.Keys == Drift.KeysOf(ts);
    if ActiveTunnel(db, peers, t) {
      var i := ActiveIsQueried(db, peers, ts, ids, t);
    }
    if peers[t].key in Drift.KeysOf(ts) { QueriedIsActive(db, peers, ts, ids, t); }
  }

  /** ... and the AllowedIPs of an active tunnel denote exactly its private address and the
      allocated addresses attached to it. */
  lemma PassServes(db: Db, peers: map<nat, Peer>, ts: seq<Drift.Want>, ids: seq<nat>, s: Agent.State,
                   ks: seq<Agent.PubKey>, t: nat, a: nat)
    requires Sound(db) && PeersOk(db, peers) && Queried(db, peers, ts, ids) && ActiveTunnel(db, peers, t)
    requires GoodStart(s) && Drift.Orphans(s, ts, ks)
    ensures var end := Drift.Pass(s, ts, ks); var k := peers[t].key;
            k in end.dev && ((exists p :: p in end.dev[k] && Denotes(p, a)) <==>
                             a == peers[t].priv || Attached(db, t, a))
  {
    QueryIsDesired(db, peers, ts, ids);
    Drift.GoodStarts(s, ts);
    Drift.DataPlaneConverges(s, ts, ks);
    var i := ActiveIsQueried(db, peers, ts, ids, t);
    assert RowFor(db, peers, ids[i], ts[i]);
    AllowedMeans(db, peers, t, ts[i], a);
  }

  // ----- moving addresses: from the transaction to the two pushes -----

  /** A billing tick, then one pass: no peer remains for a tunnel whose grace was over when the tick
      began, nor for one that the tick left suspended. */
  lemma TickThenPass(db: Db, d: Db, xs: seq<Item>, ys: seq<Item>, now: int, live: Scheduler.Catalog,
                     peers: map<nat, Peer>, ts: seq<Drift.Want>, ids: seq<nat>,
                     s: Agent.State, ks: seq<Agent.PubKey>, t: nat)
    requires Sound(db) && Scheduler.TickOf(db, d, xs, ys, now, live)
    requires PeersOk(d, peers) && Queried(d, peers, ts, ids) && t in peers
    requires Passable(s, ts) && Drift.Orphans(s, ts, ks)
    ensures Expired(db, Tunnel(t), now) || d.subs[Tunnel(t)].status == Suspended ==>
              peers[t].key !in Drift.Pass(s, ts, ks).dev
    ensures d.subs[Tunnel(t)].status == Current ==> peers[t].key in Drift.Pass(s, ts, ks).dev
  {
    Scheduler.TickKeeps(db, d, xs, ys, now, live);
    PassPeers(d, peers, ts, ids, s, ks, t);
    if Expired(db, Tunnel(t), now) { Scheduler.ExpiredTunnelGone(db, d, xs, ys, now, live, t); }
  }

  /** moveIp takes the address's /32 off every other list and puts it on the target's. */
  lemma MoveIpLists(db: Db, user: User, a: Agent.Addr, to: Option<nat>, t: nat, p: Agent.Prefix)
    requires MoveIp(db, user, a, to).Done?
    ensures var d := MoveIp(db, user, a, to).db; var c := Agent.Prefix(a, 32);
            Listed(d, t, p) <==> (Listed(db, t, p) && p != c) || (to == Some(t) && p == c)
  {
    var d := MoveIp(db, user, a, to).db;
    var c := Agent.Prefix(a, 32);
    assert SingleRow(d, t, p) <==> (SingleRow(db, t, p) && p != c) || (to == Some(t) && p == c);
    forall b: nat ensures BlockRow(d, t, b, p) <==> BlockRow(db, t, b, p) {
      SameMembers(db, d, t, b);
    }
    assert forall b :: BlockRow(db, t, b, p) ==> p != c;
  }

  lemma SameMembers(db: Db, d: Db, t: nat, b: nat)
    requires d.seats.Keys == db.seats.Keys && d.subs == db.subs
    requires forall x :: x in db.seats ==> d.seats[x].block == db.seats[x].block
    requires forall x :: x in db.seats && db.seats[x].block == Some(b) ==> d.seats[x].tunnel == db.seats[x].tunnel
    ensures HasMember(d, t, b) <==> HasMember(db, t, b)
  {
    if x :| Attached(db, t, x) && db.seats[x].block == Some(b) { assert Attached(d, t, x); }
    if x :| Attached(d, t, x) && d.seats[x].block == Some(b) { assert Attached(db, t, x); }
  }

  /** After the move the block has attached members on the target tunnel and nowhere else. */
  lemma MovedMembers(db: Db, d: Db, b: nat, to: Option<nat>, t: nat, x: nat)
    requires d.seats == Reseat(db.seats, Members(db, b), to) && d.subs == db.subs
    requires x in Members(db, b) && Ip(x) in db.subs && db.subs[Ip(x)].status == Current
    ensures HasMember(d, t, b) <==> to == Some(t)
  {
    assert to == Some(t) ==> Attached(d, t, x);
  }

  lemma SomeMember(db: Db, b: nat) returns (x: nat)
    requires Sound(db) && LiveBlock(db, b)
    ensures x in Members(db, b) && Ip(x) in db.subs && db.subs[Ip(x)].status == Current
  {
    x := db.extents[b].net;
    assert BlockOk(db, b);
    assert SeatOk(db, x);
  }

  lemma OtherBlock(db: Db, b: nat, t: nat, e: nat, p: Agent.Prefix, c: Agent.Prefix)
    requires Sound(db) && LiveBlock(db, b) && e != b && BlockRow(db, t, e, p) && c.net == db.extents[b].net
    ensures p != c
  {
    HasMemberLive(db, t, e);
    BlocksDisjoint(db, b, e);
    assert BlockOk(db, b);
    assert InExtent(db.extents[b], c.net);
    assert InExtent(db.extents[e], p.net);
  }

  /** moveIpBlock does the same with the block's CIDR. */
  lemma MoveBlockLists(db: Db, user: User, b: nat, to: Option<nat>, t: nat, p: Agent.Prefix, c: Agent.Prefix)
    requires Sound(db) && MoveBlock(db, user, b, to).Done? && FromTunnel(db, b) != to
    requires LiveBlock(db, b) && IsCidr(db.extents[b], c)
    ensures var d := MoveBlock(db, user, b, to).db;
            Listed(d, t, p) <==> (Listed(db, t, p) && p != c) || (to == Some(t) && p == c)
  {
    var d := MoveBlock(db, user, b, to).db;
    var x := SomeMember(db, b);
    MovedMembers(db, d, b, to, t, x);
    BlockMoveRows(db, d, b, to, t, p, c);
  }

  lemma BlockMoveRows(db: Db, d: Db, b: nat, to: Option<nat>, t: nat, p: Agent.Prefix, c: Agent.Prefix)
    requires Sound(db) && LiveBlock(db, b) && IsCidr(db.extents[b], c)
    requires d.seats == Reseat(db.seats, Members(db, b), to) && d.subs == db.subs && d.extents == db.extents
    requires HasMember(d, t, b) <==> to == Some(t)
    ensures Listed(d, t, p) <==> (Listed(db, t, p) && p != c) || (to == Some(t) && p == c)
  {
    SingleUnmoved(db, d, b, to, t, p);
    if IsCidr(db.extents[b], p) { OneCidr(db.extents[b], p, c); }
    forall e: nat | e != b ensures BlockRow(d, t, e, p) <==> BlockRow(db, t, e, p) && p != c {
      OtherRow(db, d, b, to, t, e, p, c);
    }
    assert BlockRow(d, t, b, p) <==> to == Some(t) && p == c;
  }

  lemma SingleUnmoved(db: Db, d: Db, b: nat, to: Option<nat>, t: nat, p: Agent.Prefix)
    requires d.seats == Reseat(db.seats, Members(db, b), to) && d.subs == db.subs
    ensures SingleRow(d, t, p) <==> SingleRow(db, t, p)
  {
  }

  lemma OtherRow(db: Db, d: Db, b: nat, to: Option<nat>, t: nat, e: nat, p: Agent.Prefix, c: Agent.Prefix)
    requires Sound(db) && LiveBlock(db, b) && c.net == db.extents[b].net && e != b
    requires d.seats == Reseat(db.seats, Members(db, b), to) && d.subs == db.subs && d.extents == db.extents
    ensures BlockRow(d, t, e, p) <==> BlockRow(db, t, e, p) && p != c
  {
    SameMembers(db, d, t, e);
    if BlockRow(db, t, e, p) { OtherBlock(db, b, t, e, p, c); }
  }

  lemma HasMemberLive(db: Db, t: nat, e: nat)
    requires Sound(db) && HasMember(db, t, e)
    ensures LiveBlock(db, e)
  {
    var m :| Attached(db, t, m) && db.seats[m].block == Some(e);
    assert SeatOk(db, m);
  }
}

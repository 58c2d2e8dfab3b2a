/** moveIp and moveIpBlock from the transaction to the gateway: the losing tunnel is pushed first, then
    the gaining one, and any of the calls may fail (packages/provisioning/src/public-ip.ts and
    ip-block.ts). */
module Moves {
  import opened Common
  import opened Arith
  import opened Ledger
  import opened Tables
  import opened Placement
  import opened Runs
  import opened Grouping
  import Agent
  import Coherence
  import Plans = SalePlans

  // ----- an agent that follows the database -----

  /** What the agent records for tunnel t, if anything, is what the database lists for it. */
  ghost predicate PeerInSync(db: Db, peers: map<nat, Peer>, s: Agent.State, t: nat)
    requires t in peers
  {
    var k := peers[t].key;
    k in s.meta ==>
      && Tunnel(t) in db.subs && db.subs[Tunnel(t)].status != Closed
      && s.meta[k].status == Agent.Active && s.meta[k].priv == Agent.Bare(peers[t].priv)
      && forall p :: p in Agent.Prefixes(s.meta[k].pubs) <==> Listed(db, t, p)
  }

  ghost predicate Known(peers: map<nat, Peer>, s: Agent.State) {
    forall k :: k in s.meta ==> exists t :: t in peers && peers[t].key == k
  }

  /** Every peer of the agent belongs to a tunnel of this gateway that is not deleted, and is in sync.
      Tunnels may be missing on the agent. */
  ghost predicate AgentInSync(db: Db, peers: map<nat, Peer>, s: Agent.State) {
    Coherence.Coherent(s) && Known(peers, s) && forall t :: t in peers ==> PeerInSync(db, peers, s, t)
  }

  /** Every peer but t's records only what the database lists for its tunnel. */
  ghost predicate OthersFit(db: Db, peers: map<nat, Peer>, s: Agent.State, t: nat) {
    forall u :: u in peers && u != t && peers[u].key in s.meta ==> FitsList(db, peers, s, u)
  }

  ghost predicate FitsList(db: Db, peers: map<nat, Peer>, s: Agent.State, u: nat)
    requires u in peers && peers[u].key in s.meta
  {
    var m := s.meta[peers[u].key];
    m.priv == Agent.Bare(peers[u].priv) && forall p :: p in Agent.Prefixes(m.pubs) ==> Listed(db, u, p)
  }

  /** The push that loadTunnelSync prepares for tunnel t. */
  ghost predicate SyncFor(d: Db, peers: map<nat, Peer>, t: nat, x: Coherence.Sync) {
    t in peers && x.key == peers[t].key && x.priv == Agent.Bare(peers[t].priv) && ListFor(d, t, x.pubs)
  }

  lemma AllowedIs(priv: Agent.Addr, pubs: seq<Agent.Text>)
    requires Agent.AllParse(pubs)
    ensures Agent.AllParse([Agent.Bare(priv)] + pubs)
    ensures forall p :: p in Agent.Allowed(Agent.Bare(priv), pubs) <==>
              p == Agent.Prefix(priv, 32) || p in Agent.Prefixes(pubs)
  {
    var all := [Agent.Bare(priv)] + pubs;
    assert all[0] == Agent.Bare(priv) && Agent.Parse(all[0]) == Some(Agent.Prefix(priv, 32));
    assert forall x :: x in all <==> x == Agent.Bare(priv) || x in pubs;
  }

  /** Private addresses and listed prefixes of two tunnels have nothing in common. */
  lemma NothingShared(db: Db, peers: map<nat, Peer>, t: nat, u: nat, p: Agent.Prefix)
    requires Sound(db) && PeersOk(db, peers) && t in peers && u in peers && t != u
    ensures !((p == Agent.Prefix(peers[t].priv, 32) || Listed(db, t, p)) &&
              (p == Agent.Prefix(peers[u].priv, 32) || Listed(db, u, p)))
  {
    if Listed(db, t, p) { ListedNetInSeats(db, t, p); }
    if Listed(db, u, p) { ListedNetInSeats(db, u, p); }
  }

  lemma StoredPubsParse(s: Agent.State, k: Agent.PubKey)
    requires Coherence.Coherent(s) && k in s.meta
    ensures Agent.AllParse(s.meta[k].pubs)
  {
    Coherence.CoherentStored(s, k);
  }

  /** A list within what the database lists for t claims nothing that another peer records. */
  lemma ListUnclaimed(db: Db, peers: map<nat, Peer>, s: Agent.State, t: nat, x: Coherence.Sync)
    requires Sound(db) && PeersOk(db, peers) && Coherence.Coherent(s) && Known(peers, s) && OthersFit(db, peers, s, t)
    requires t in peers && x.key == peers[t].key && x.priv == Agent.Bare(peers[t].priv) && Agent.AllParse(x.pubs)
    requires forall p :: p in Agent.Prefixes(x.pubs) ==> Listed(db, t, p)
    ensures Agent.AllParse([x.priv] + x.pubs)
    ensures Coherence.Unclaimed(s, x.key, Agent.Allowed(x.priv, x.pubs))
  {
    AllowedIs(peers[t].priv, x.pubs);
    forall l | l in s.meta && l != x.key ensures Coherence.AllowedOf(s.meta[l]) !! Agent.Allowed(x.priv, x.pubs) {
      var u :| u in peers && peers[u].key == l;
      assert FitsList(db, peers, s, u);
      StoredPubsParse(s, l);
      AllowedIs(peers[u].priv, s.meta[l].pubs);
      forall p | p in Coherence.AllowedOf(s.meta[l]) ensures p !in Agent.Allowed(x.priv, x.pubs) {
        NothingShared(db, peers, t, u, p);
      }
    }
  }

  // ----- what a move changes -----

  ghost predicate ListsMoved(db: Db, d: Db, to: Option<nat>, c: Agent.Prefix) {
    forall t: nat, p: Agent.Prefix :: Listed(d, t, p) <==> (Listed(db, t, p) && p != c) || (to == Some(t) && p == c)
  }

  ghost predicate ListedBy(db: Db, from: Option<nat>, c: Agent.Prefix) {
    forall t: nat :: Listed(db, t, c) ==> from == Some(t)
  }

  /** The transaction took the prefix c off the list of `from` and put it on the list of `to`. */
  ghost predicate Moved(db: Db, d: Db, from: Option<nat>, to: Option<nat>, c: Agent.Prefix) {
    && Sound(db) && Sound(d) && d.subs == db.subs && d.seats.Keys == db.seats.Keys && from != to
    && ListsMoved(db, d, to, c) && ListedBy(db, from, c)
    && (to.Some? ==> Tunnel(to.value) in d.subs && d.subs[Tunnel(to.value)].status == Current)
  }

  /** loadTunnelSync finds the tunnel, and it is a WireGuard tunnel of this gateway. */
  ghost predicate Reaches(d: Db, peers: map<nat, Peer>, t: Option<nat>) {
    t.Some? && t.value in peers && Tunnel(t.value) in d.subs && d.subs[Tunnel(t.value)].status != Closed
  }

  /** The pushes that this gateway's agent gets, the losing tunnel first. */
  ghost predicate PushList(d: Db, peers: map<nat, Peer>, from: Option<nat>, to: Option<nat>, xs: seq<Coherence.Sync>) {
    var lose, gain := Reaches(d, peers, from), Reaches(d, peers, to);
    && |xs| == (if lose then 1 else 0) + (if gain then 1 else 0)
    && (lose ==> SyncFor(d, peers, from.value, xs[0]))
    && (gain ==> SyncFor(d, peers, to.value, xs[|xs| - 1]))
  }

  lemma PeersStillOk(db: Db, d: Db, peers: map<nat, Peer>)
    requires PeersOk(db, peers) && d.subs == db.subs && d.seats.Keys == db.seats.Keys
    ensures PeersOk(d, peers)
  {
  }

  /** Lists of tunnels that the move does not concern are as before. */
  lemma Bystander(db: Db, d: Db, from: Option<nat>, to: Option<nat>, c: Agent.Prefix, u: nat, p: Agent.Prefix)
    requires Moved(db, d, from, to, c) && from != Some(u) && to != Some(u)
    ensures Listed(d, u, p) <==> Listed(db, u, p)
  {
  }

  /** The losing push, against an agent in sync with the database before the move. */
  lemma LoserPush(db: Db, d: Db, from: nat, to: Option<nat>, c: Agent.Prefix, peers: map<nat, Peer>,
                  s: Agent.State, x: Coherence.Sync)
    requires Moved(db, d, Some(from), to, c) && PeersOk(db, peers) && AgentInSync(db, peers, s)
    requires SyncFor(d, peers, from, x)
    ensures var (s1, reply) := Agent.Updated(s, x.key, x.priv, x.pubs);
            Coherence.Coherent(s1) && Coherence.Pushes(s, x, s1) && reply == Agent.Ok
  {
    ListPrefixes(d, from, x.pubs);
    forall u | u in peers && u != from && peers[u].key in s.meta ensures FitsList(db, peers, s, u) {
      assert PeerInSync(db, peers, s, u);
    }
    assert PeerInSync(db, peers, s, from);
    ListUnclaimed(db, peers, s, from, x);
    Coherence.PushKeeps(s, x);
  }

  /** After it, everybody but the gaining tunnel is in sync with the database after the move. */
  lemma AfterLoser(db: Db, d: Db, from: nat, to: Option<nat>, c: Agent.Prefix, peers: map<nat, Peer>,
                   s: Agent.State, x: Coherence.Sync, s1: Agent.State, u: nat)
    requires Moved(db, d, Some(from), to, c) && PeersOk(db, peers) && AgentInSync(db, peers, s)
    requires SyncFor(d, peers, from, x) && Reaches(d, peers, Some(from)) && Coherence.Pushes(s, x, s1)
    requires u in peers && to != Some(u)
    ensures PeerInSync(d, peers, s1, u)
  {
    assert PeerInSync(db, peers, s, u);
    if u == from {
      ListPrefixes(d, from, x.pubs);
    } else {
      forall p ensures Listed(d, u, p) <==> Listed(db, u, p) { Bystander(db, d, Some(from), to, c, u, p); }
    }
  }

  /** With no losing push on this agent, the others are in sync with both databases. */
  lemma WithoutLoser(db: Db, d: Db, from: Option<nat>, to: Option<nat>, c: Agent.Prefix, peers: map<nat, Peer>,
                     s: Agent.State, u: nat)
    requires Moved(db, d, from, to, c) && AgentInSync(db, peers, s) && !Reaches(d, peers, from)
    requires u in peers && to != Some(u)
    ensures PeerInSync(d, peers, s, u)
  {
    assert PeerInSync(db, peers, s, u);
    if from != Some(u) {
      forall p ensures Listed(d, u, p) <==> Listed(db, u, p) { Bystander(db, d, from, to, c, u, p); }
    }
  }

  /** The gaining push, once everybody else is in sync with the new database. */
  lemma GainerPush(d: Db, to: nat, peers: map<nat, Peer>, s: Agent.State, x: Coherence.Sync)
    requires Sound(d) && PeersOk(d, peers) && Coherence.Coherent(s) && Known(peers, s) && SyncFor(d, peers, to, x)
    requires forall u :: u in peers && u != to ==> PeerInSync(d, peers, s, u)
    requires peers[to].key in s.meta ==> s.meta[peers[to].key].status == Agent.Active
    ensures var s1 := Agent.Updated(s, x.key, x.priv, x.pubs).0;
            Coherence.Coherent(s1) && Coherence.Pushes(s, x, s1)
  {
    ListPrefixes(d, to, x.pubs);
    forall u | u in peers && u != to && peers[u].key in s.meta ensures FitsList(d, peers, s, u) {
      assert PeerInSync(d, peers, s, u);
    }
    ListUnclaimed(d, peers, s, to, x);
    Coherence.PushKeeps(s, x);
  }

  lemma AfterGainer(d: Db, to: nat, peers: map<nat, Peer>, s: Agent.State, x: Coherence.Sync, s1: Agent.State)
    requires PeersOk(d, peers) && Known(peers, s) && SyncFor(d, peers, to, x) && Reaches(d, peers, Some(to))
    requires forall u :: u in peers && u != to ==> PeerInSync(d, peers, s, u)
    requires Coherence.Coherent(s1) && Coherence.Pushes(s, x, s1)
    ensures AgentInSync(d, peers, s1)
  {
    ListPrefixes(d, to, x.pubs);
    forall u | u in peers ensures PeerInSync(d, peers, s1, u) {
      if u != to { assert PeerInSync(d, peers, s, u); }
    }
    StillKnown(peers, s, s1, to, x);
  }

  lemma StillKnown(peers: map<nat, Peer>, s: Agent.State, s1: Agent.State, t: nat, x: Coherence.Sync)
    requires Known(peers, s) && t in peers && x.key == peers[t].key && Coherence.Pushes(s, x, s1)
    ensures Known(peers, s1)
  {
  }

  // ----- the pushes of one agent -----

  ghost predicate AllDelivered(fates: seq<Coherence.Fate>) {
    forall i :: 0 <= i < |fates| ==> fates[i] == Coherence.Delivered
  }

  lemma PushNone(s: Agent.State)
    ensures Coherence.PushSyncs(s, [], []) == s
  {
  }

  lemma PushOne(s: Agent.State, x: Coherence.Sync, fate: Coherence.Fate)
    ensures Coherence.PushSyncs(s, [x], [fate]) ==
            if fate == Coherence.LostBefore then s else Agent.Updated(s, x.key, x.priv, x.pubs).0
  {
    assert [x][1..] == [] && [fate][1..] == [];
    PushNone(Agent.Updated(s, x.key, x.priv, x.pubs).0);
  }

  /** Only the losing tunnel is on this agent: detached, or moved to another gateway. */
  lemma OnlyLoser(db: Db, d: Db, from: nat, to: Option<nat>, c: Agent.Prefix, peers: map<nat, Peer>,
                  s: Agent.State, x: Coherence.Sync, s1: Agent.State)
    requires Moved(db, d, Some(from), to, c) && PeersOk(db, peers) && AgentInSync(db, peers, s)
    requires SyncFor(d, peers, from, x) && Reaches(d, peers, Some(from)) && (to.Some? ==> to.value !in peers)
    requires s1 == Agent.Updated(s, x.key, x.priv, x.pubs).0
    ensures AgentInSync(d, peers, s1)
  {
    LoserPush(db, d, from, to, c, peers, s, x);
    forall u | u in peers ensures PeerInSync(d, peers, s1, u) { AfterLoser(db, d, from, to, c, peers, s, x, s1, u); }
    StillKnown(peers, s, s1, from, x);
  }

  /** Everybody but the gaining tunnel is in sync with the new database. */
  ghost predicate HalfWay(d: Db, peers: map<nat, Peer>, s: Agent.State, to: nat) {
    && Coherence.Coherent(s) && Known(peers, s)
    && (forall u :: u in peers && u != to ==> PeerInSync(d, peers, s, u))
    && (to in peers && peers[to].key in s.meta ==> s.meta[peers[to].key].status == Agent.Active)
  }

  lemma LoserHalfWay(db: Db, d: Db, from: nat, to: nat, c: Agent.Prefix, peers: map<nat, Peer>, s: Agent.State,
                     x: Coherence.Sync, s1: Agent.State)
    requires Moved(db, d, Some(from), Some(to), c) && PeersOk(db, peers) && AgentInSync(db, peers, s)
    requires SyncFor(d, peers, from, x) && Reaches(d, peers, Some(from))
    requires Coherence.Coherent(s1) && Coherence.Pushes(s, x, s1)
    ensures HalfWay(d, peers, s1, to)
  {
    forall u | u in peers && u != to ensures PeerInSync(d, peers, s1, u) {
      AfterLoser(db, d, from, Some(to), c, peers, s, x, s1, u);
    }
    StillKnown(peers, s, s1, from, x);
    if to in peers { assert PeerInSync(db, peers, s, to); }
  }

  lemma GainerCompletes(d: Db, to: nat, peers: map<nat, Peer>, s: Agent.State, x: Coherence.Sync)
    requires Sound(d) && PeersOk(d, peers) && HalfWay(d, peers, s, to)
    requires SyncFor(d, peers, to, x) && Reaches(d, peers, Some(to))
    ensures AgentInSync(d, peers, Agent.Updated(s, x.key, x.priv, x.pubs).0)
  {
    GainerPush(d, to, peers, s, x);
    AfterGainer(d, to, peers, s, x, Agent.Updated(s, x.key, x.priv, x.pubs).0);
  }

  /** Only the gaining tunnel is: attached, or moved from another gateway or from a deleted tunnel. */
  lemma OnlyGainer(db: Db, d: Db, from: Option<nat>, to: nat, c: Agent.Prefix, peers: map<nat, Peer>,
                   s: Agent.State, x: Coherence.Sync, s1: Agent.State)
    requires Moved(db, d, from, Some(to), c) && PeersOk(db, peers) && AgentInSync(db, peers, s)
    requires SyncFor(d, peers, to, x) && !Reaches(d, peers, from) && s1 == Agent.Updated(s, x.key, x.priv, x.pubs).0
    ensures AgentInSync(d, peers, s1)
  {
    PeersStillOk(db, d, peers);
    forall u | u in peers && u != to ensures PeerInSync(d, peers, s, u) {
      WithoutLoser(db, d, from, Some(to), c, peers, s, u);
    }
    assert PeerInSync(db, peers, s, to);
    GainerCompletes(d, to, peers, s, x);
  }

  lemma Unpushed(db: Db, d: Db, from: Option<nat>, to: Option<nat>, c: Agent.Prefix, peers: map<nat, Peer>,
                 s: Agent.State)
    requires Moved(db, d, from, to, c) && AgentInSync(db, peers, s) && !Reaches(d, peers, from)
    requires !Reaches(d, peers, to)
    ensures AgentInSync(d, peers, s)
  {
    forall u | u in peers ensures PeerInSync(d, peers, s, u) { WithoutLoser(db, d, from, to, c, peers, s, u); }
  }

  /** What is promised of an agent after the pushes. */
  ghost predicate Outcome(d: Db, peers: map<nat, Peer>, s: Agent.State, fates: seq<Coherence.Fate>) {
    Coherence.Coherent(s) && (AllDelivered(fates) ==> AgentInSync(d, peers, s))
  }

  lemma OnePush(db: Db, d: Db, from: Option<nat>, to: Option<nat>, c: Agent.Prefix, peers: map<nat, Peer>,
                s: Agent.State, x: Coherence.Sync, fate: Coherence.Fate)
    requires Moved(db, d, from, to, c) && PeersOk(db, peers) && AgentInSync(db, peers, s)
    requires PushList(d, peers, from, to, [x])
    ensures Outcome(d, peers, Coherence.PushSyncs(s, [x], [fate]), [fate])
  {
    var s1 := Agent.Updated(s, x.key, x.priv, x.pubs).0;
    PushOne(s, x, fate);
    if Reaches(d, peers, from) {
      OnlyLoser(db, d, from.value, to, c, peers, s, x, s1);
    } else {
      OnlyGainer(db, d, from, to.value, c, peers, s, x, s1);
    }
  }

  lemma LoserStep(db: Db, d: Db, from: nat, to: nat, c: Agent.Prefix, peers: map<nat, Peer>,
                  s: Agent.State, x: Coherence.Sync)
    requires Moved(db, d, Some(from), Some(to), c) && PeersOk(db, peers) && AgentInSync(db, peers, s)
    requires Reaches(d, peers, Some(from)) && SyncFor(d, peers, from, x)
    ensures HalfWay(d, peers, Agent.Updated(s, x.key, x.priv, x.pubs).0, to)
    ensures Agent.Updated(s, x.key, x.priv, x.pubs).1 == Agent.Ok
  {
    LoserPush(db, d, from, Some(to), c, peers, s, x);
    LoserHalfWay(db, d, from, to, c, peers, s, x, Agent.Updated(s, x.key, x.priv, x.pubs).0);
  }

  /** The agent before, between and after two pushes; the fates decide which of them is left. */
  lemma TwoOutcomes(d: Db, to: nat, peers: map<nat, Peer>, s: Agent.State, s1: Agent.State, s2: Agent.State,
                    end: Agent.State, fates: seq<Coherence.Fate>)
    requires Coherence.Coherent(s) && HalfWay(d, peers, s1, to) && AgentInSync(d, peers, s2) && |fates| == 2
    requires end == s || end == s1 || end == s2
    requires fates == [Coherence.Delivered, Coherence.Delivered] ==> end == s2
    ensures Outcome(d, peers, end, fates)
  {
    assert AllDelivered(fates) ==> fates == [Coherence.Delivered, Coherence.Delivered];
  }

  lemma PushTwo(s: Agent.State, xs: seq<Coherence.Sync>, fates: seq<Coherence.Fate>, s1: Agent.State, s2: Agent.State)
    requires |xs| == 2 && |fates| == 2
    requires Agent.Updated(s, xs[0].key, xs[0].priv, xs[0].pubs) == (s1, Agent.Ok)
    requires s2 == Agent.Updated(s1, xs[1].key, xs[1].priv, xs[1].pubs).0
    ensures var end := Coherence.PushSyncs(s, xs, fates);
            (end == s || end == s1 || end == s2) &&
            (fates == [Coherence.Delivered, Coherence.Delivered] ==> end == s2)
  {
    assert xs == [xs[0], xs[1]];
    Coherence.MovePushes(s, xs[0], xs[1], fates);
  }

  lemma TwoPushes(d: Db, to: nat, peers: map<nat, Peer>, s: Agent.State,
                  xs: seq<Coherence.Sync>, fates: seq<Coherence.Fate>, s1: Agent.State)
    requires Sound(d) && PeersOk(d, peers) && Coherence.Coherent(s) && |xs| == 2 && |fates| == 2
    requires Agent.Updated(s, xs[0].key, xs[0].priv, xs[0].pubs) == (s1, Agent.Ok) && HalfWay(d, peers, s1, to)
    requires Reaches(d, peers, Some(to)) && SyncFor(d, peers, to, xs[1])
    ensures Outcome(d, peers, Coherence.PushSyncs(s, xs, fates), fates)
  {
    var s2 := Agent.Updated(s1, xs[1].key, xs[1].priv, xs[1].pubs).0;
    GainerCompletes(d, to, peers, s1, xs[1]);
    PushTwo(s, xs, fates, s1, s2);
    TwoOutcomes(d, to, peers, s, s1, s2, Coherence.PushSyncs(s, xs, fates), fates);
  }

  lemma MovedByNone(db: Db, d: Db, from: Option<nat>, to: Option<nat>, c: Agent.Prefix, peers: map<nat, Peer>,
                    s: Agent.State, xs: seq<Coherence.Sync>, fates: seq<Coherence.Fate>)
    requires Moved(db, d, from, to, c) && PeersOk(db, peers) && AgentInSync(db, peers, s)
    requires PushList(d, peers, from, to, xs) && |fates| == |xs| == 0
    ensures Outcome(d, peers, Coherence.PushSyncs(s, xs, fates), fates)
  {
    assert xs == [] && fates == [];
    Unpushed(db, d, from, to, c, peers, s);
  }

  lemma MovedByOne(db: Db, d: Db, from: Option<nat>, to: Option<nat>, c: Agent.Prefix, peers: map<nat, Peer>,
                   s: Agent.State, xs: seq<Coherence.Sync>, fates: seq<Coherence.Fate>)
    requires Moved(db, d, from, to, c) && PeersOk(db, peers) && AgentInSync(db, peers, s)
    requires PushList(d, peers, from, to, xs) && |fates| == |xs| == 1
    ensures Outcome(d, peers, Coherence.PushSyncs(s, xs, fates), fates)
  {
    assert xs == [xs[0]] && fates == [fates[0]];
    OnePush(db, d, from, to, c, peers, s, xs[0], fates[0]);
  }

  lemma TwoSyncs(d: Db, peers: map<nat, Peer>, from: Option<nat>, to: Option<nat>, xs: seq<Coherence.Sync>)
    requires PushList(d, peers, from, to, xs) && |xs| == 2
    ensures Reaches(d, peers, from) && SyncFor(d, peers, from.value, xs[0])
    ensures Reaches(d, peers, to) && SyncFor(d, peers, to.value, xs[1])
  {
  }

  lemma MovedByTwo(db: Db, d: Db, from: Option<nat>, to: Option<nat>, c: Agent.Prefix, peers: map<nat, Peer>,
                   s: Agent.State, xs: seq<Coherence.Sync>, fates: seq<Coherence.Fate>)
    requires Moved(db, d, from, to, c) && PeersOk(db, peers) && AgentInSync(db, peers, s)
    requires PushList(d, peers, from, to, xs) && |fates| == |xs| == 2
    ensures Outcome(d, peers, Coherence.PushSyncs(s, xs, fates), fates)
  {
    TwoSyncs(d, peers, from, to, xs);
    PeersStillOk(db, d, peers);
    LoserStep(db, d, from.value, to.value, c, peers, s, xs[0]);
    TwoPushes(d, to.value, peers, s, xs, fates, Agent.Updated(s, xs[0].key, xs[0].priv, xs[0].pubs).0);
  }

  /** Whatever becomes of the calls, the agent stays coherent; when all arrive, it is in sync with the
      database after the move. */
  lemma MovedKeepsAgent(db: Db, d: Db, from: Option<nat>, to: Option<nat>, c: Agent.Prefix, peers: map<nat, Peer>,
                        s: Agent.State, xs: seq<Coherence.Sync>, fates: seq<Coherence.Fate>)
    requires Moved(db, d, from, to, c) && PeersOk(db, peers) && AgentInSync(db, peers, s)
    requires PushList(d, peers, from, to, xs) && |fates| == |xs|
    ensures Outcome(d, peers, Coherence.PushSyncs(s, xs, fates), fates)
  {
    if |xs| == 0 {
      MovedByNone(db, d, from, to, c, peers, s, xs, fates);
    } else if |xs| == 1 {
      MovedByOne(db, d, from, to, c, peers, s, xs, fates);
    } else {
      MovedByTwo(db, d, from, to, c, peers, s, xs, fates);
    }
  }

  // ----- the two moves -----

  lemma IpListsMoved(db: Db, user: User, a: Agent.Addr, to: Option<nat>, d: Db, c: Agent.Prefix)
    requires MoveIp(db, user, a, to) == Done(d) && c == Agent.Prefix(a, 32)
    ensures ListsMoved(db, d, to, c)
  {
    forall t: nat, p: Agent.Prefix
      ensures Listed(d, t, p) <==> (Listed(db, t, p) && p != c) || (to == Some(t) && p == c)
    {
      MoveIpLists(db, user, a, to, t, p);
    }
  }

  lemma IpListedBy(db: Db, a: Agent.Addr, c: Agent.Prefix)
    requires Sound(db) && a in db.seats && c == Agent.Prefix(a, 32)
    ensures ListedBy(db, db.seats[a].tunnel, c)
  {
    forall t: nat | Listed(db, t, c) ensures db.seats[a].tunnel == Some(t) { ListedNetInSeats(db, t, c); }
  }

  lemma MoveIpIsMoved(db: Db, user: User, a: Agent.Addr, to: Option<nat>, d: Db, c: Agent.Prefix)
    requires Sound(db) && MoveIp(db, user, a, to) == Done(d) && db.seats[a].tunnel != to && c == Agent.Prefix(a, 32)
    ensures Moved(db, d, db.seats[a].tunnel, to, c)
  {
    MoveIpPlaced(db, user, a, to);
    IpListsMoved(db, user, a, to, d, c);
    IpListedBy(db, a, c);
  }

  /** moveIp, all the way: attach, detach or move, to any gateways, with any of the calls failing. */
  lemma MoveIpKeepsAgent(db: Db, user: User, a: Agent.Addr, to: Option<nat>, d: Db, peers: map<nat, Peer>,
                         s: Agent.State, xs: seq<Coherence.Sync>, fates: seq<Coherence.Fate>)
    requires Sound(db) && MoveIp(db, user, a, to) == Done(d) && db.seats[a].tunnel != to
    requires PeersOk(db, peers) && AgentInSync(db, peers, s)
    requires PushList(d, peers, db.seats[a].tunnel, to, xs) && |fates| == |xs|
    ensures Outcome(d, peers, Coherence.PushSyncs(s, xs, fates), fates)
  {
    MoveIpIsMoved(db, user, a, to, d, Agent.Prefix(a, 32));
    MovedKeepsAgent(db, d, db.seats[a].tunnel, to, Agent.Prefix(a, 32), peers, s, xs, fates);
  }

  lemma BlockHasCidr(db: Db, b: nat) returns (c: Agent.Prefix)
    requires Sound(db) && LiveBlock(db, b)
    ensures IsCidr(db.extents[b], c)
  {
    BlockBelow(db, b);
    var x := db.extents[b];
    c := Agent.Prefix(x.net, Plans.PrefixOf(x.size));
  }

  /** Whoever lists a block's CIDR has the block attached. */
  lemma ListedBlockIsFrom(db: Db, b: nat, t: nat, c: Agent.Prefix)
    requires Sound(db) && LiveBlock(db, b) && IsCidr(db.extents[b], c) && Listed(db, t, c)
    ensures FromTunnel(db, b) == Some(t)
  {
    var e :| BlockRow(db, t, e, c);
    if e != b { OtherBlock(db, b, t, e, c, c); }
    var a :| Attached(db, t, a) && db.seats[a].block == Some(b);
    FirstTunnelWellDefined(db, b, a);
  }

  lemma BlockListsMoved(db: Db, user: User, b: nat, to: Option<nat>, d: Db, c: Agent.Prefix)
    requires Sound(db) && MoveBlock(db, user, b, to) == Done(d) && FromTunnel(db, b) != to
    requires LiveBlock(db, b) && IsCidr(db.extents[b], c)
    ensures ListsMoved(db, d, to, c)
  {
    forall t: nat, p: Agent.Prefix
      ensures Listed(d, t, p) <==> (Listed(db, t, p) && p != c) || (to == Some(t) && p == c)
    {
      MoveBlockLists(db, user, b, to, t, p, c);
    }
  }

  lemma BlockListedBy(db: Db, b: nat, c: Agent.Prefix)
    requires Sound(db) && LiveBlock(db, b) && IsCidr(db.extents[b], c)
    ensures ListedBy(db, FromTunnel(db, b), c)
  {
    forall t: nat | Listed(db, t, c) ensures FromTunnel(db, b) == Some(t) { ListedBlockIsFrom(db, b, t, c); }
  }

  lemma MoveBlockRows(db: Db, user: User, b: nat, to: Option<nat>, d: Db)
    requires Sound(db) && MoveBlock(db, user, b, to) == Done(d)
    ensures Sound(d) && d.subs == db.subs && d.seats.Keys == db.seats.Keys
    ensures to.Some? ==> Tunnel(to.value) in d.subs && d.subs[Tunnel(to.value)].status == Current
  {
    MoveBlockPlaced(db, user, b, to);
  }

  lemma MoveBlockIsMoved(db: Db, user: User, b: nat, to: Option<nat>, d: Db, c: Agent.Prefix)
    requires Sound(db) && MoveBlock(db, user, b, to) == Done(d) && FromTunnel(db, b) != to
    requires LiveBlock(db, b) && IsCidr(db.extents[b], c)
    ensures Moved(db, d, FromTunnel(db, b), to, c)
  {
    MoveBlockRows(db, user, b, to, d);
    BlockListsMoved(db, user, b, to, d, c);
    BlockListedBy(db, b, c);
  }

  /** moveIpBlock, all the way, with the block's CIDR. */
  lemma MoveBlockKeepsAgent(db: Db, user: User, b: nat, to: Option<nat>, d: Db, peers: map<nat, Peer>,
                            s: Agent.State, xs: seq<Coherence.Sync>, fates: seq<Coherence.Fate>)
    requires Sound(db) && MoveBlock(db, user, b, to) == Done(d) && FromTunnel(db, b) != to
    requires PeersOk(db, peers) && AgentInSync(db, peers, s)
    requires PushList(d, peers, FromTunnel(db, b), to, xs) && |fates| == |xs|
    ensures Outcome(d, peers, Coherence.PushSyncs(s, xs, fates), fates)
  {
    assert LiveBlock(db, b);
    var c := BlockHasCidr(db, b);
    MoveBlockIsMoved(db, user, b, to, d, c);
    MovedKeepsAgent(db, d, FromTunnel(db, b), to, c, peers, s, xs, fates);
  }

  // ----- what a move does to a tunnel that has no peer -----

  /** A push for a tunnel without a peer creates one, if it arrives. */
  lemma LosingPushCreates(d: Db, peers: map<nat, Peer>, from: nat, to: Option<nat>, s: Agent.State,
                          xs: seq<Coherence.Sync>, fates: seq<Coherence.Fate>)
    requires PeersOk(d, peers) && from in peers && peers[from].key !in s.meta && peers[from].key !in s.dev
    requires Reaches(d, peers, Some(from)) && to != Some(from) && PushList(d, peers, Some(from), to, xs)
    requires |fates| == |xs|
    ensures peers[from].key in Coherence.PushSyncs(s, xs, fates).dev <==> fates[0] != Coherence.LostBefore
  {
    var x := xs[0];
    ListPrefixes(d, from, x.pubs);
    AllowedIs(peers[from].priv, x.pubs);
    Coherence.UpdateIs(s, x.key, x.priv, x.pubs);
    if |xs| == 1 {
      assert xs == [x] && fates == [fates[0]];
      PushOne(s, x, fates[0]);
    } else {
      RevivedStays(s, xs, fates);
    }
  }

  lemma RevivedStays(s: Agent.State, xs: seq<Coherence.Sync>, fates: seq<Coherence.Fate>)
    requires |xs| == 2 && |fates| == 2
    ensures var s1 := Agent.Updated(s, xs[0].key, xs[0].priv, xs[0].pubs).0;
            if fates[0] == Coherence.LostBefore then Coherence.PushSyncs(s, xs, fates) == s
            else xs[0].key in s1.dev ==> xs[0].key in Coherence.PushSyncs(s, xs, fates).dev
  {
    var s1 := Agent.Updated(s, xs[0].key, xs[0].priv, xs[0].pubs).0;
    assert xs[1..] == [xs[1]] && fates[1..] == [fates[1]];
    PushOne(s1, xs[1], fates[1]);
  }

  lemma UpdateDevice(s: Agent.State, x: Coherence.Sync, k: Agent.PubKey)
    requires k != x.key
    ensures k in Agent.Updated(s, x.key, x.priv, x.pubs).0.dev <==> k in s.dev
  {
  }

  /** Without a push for it, the tunnel has no peer afterwards either. */
  lemma NoLosingPush(d: Db, peers: map<nat, Peer>, from: nat, to: Option<nat>, s: Agent.State,
                     xs: seq<Coherence.Sync>, fates: seq<Coherence.Fate>)
    requires PeersOk(d, peers) && from in peers && peers[from].key !in s.dev && !Reaches(d, peers, Some(from))
    requires to != Some(from) && PushList(d, peers, Some(from), to, xs) && |fates| == |xs|
    ensures peers[from].key !in Coherence.PushSyncs(s, xs, fates).dev
  {
    if |xs| == 0 {
      assert xs == [] && fates == [];
    } else {
      assert xs == [xs[0]] && fates == [fates[0]];
      PushOne(s, xs[0], fates[0]);
      UpdateDevice(s, xs[0], peers[from].key);
    }
  }

  /** Any move off a tunnel without a peer, all pushes arriving. */
  lemma MovedRevivesIff(db: Db, d: Db, from: nat, to: Option<nat>, c: Agent.Prefix, peers: map<nat, Peer>,
                        s: Agent.State, xs: seq<Coherence.Sync>, fates: seq<Coherence.Fate>)
    requires Moved(db, d, Some(from), to, c) && PeersOk(db, peers) && from in peers
    requires peers[from].key !in s.meta && peers[from].key !in s.dev
    requires PushList(d, peers, Some(from), to, xs) && |fates| == |xs| && AllDelivered(fates)
    ensures peers[from].key in Coherence.PushSyncs(s, xs, fates).dev <==> db.subs[Tunnel(from)].status != Closed
  {
    PeersStillOk(db, d, peers);
    if Reaches(d, peers, Some(from)) {
      LosingPushCreates(d, peers, from, to, s, xs, fates);
    } else {
      NoLosingPush(d, peers, from, to, s, xs, fates);
    }
  }

  /** Moving a single off a tunnel that has no peer on the agent, say because the tunnel is suspended and
      drift removed it, brings the peer back exactly when the tunnel is not deleted. */
  lemma MoveIpRevivesIff(db: Db, user: User, a: Agent.Addr, from: nat, to: Option<nat>, d: Db, peers: map<nat, Peer>,
                         s: Agent.State, xs: seq<Coherence.Sync>, fates: seq<Coherence.Fate>)
    requires Sound(db) && MoveIp(db, user, a, to) == Done(d) && db.seats[a].tunnel == Some(from) && to != Some(from)
    requires PeersOk(db, peers) && from in peers && peers[from].key !in s.meta && peers[from].key !in s.dev
    requires PushList(d, peers, Some(from), to, xs) && |fates| == |xs| && AllDelivered(fates)
    ensures peers[from].key in Coherence.PushSyncs(s, xs, fates).dev <==> db.subs[Tunnel(from)].status != Closed
  {
    MoveIpIsMoved(db, user, a, to, d, Agent.Prefix(a, 32));
    MovedRevivesIff(db, d, from, to, Agent.Prefix(a, 32), peers, s, xs, fates);
  }

  /** The same for a block. */
  lemma MoveBlockRevivesIff(db: Db, user: User, b: nat, from: nat, to: Option<nat>, d: Db, peers: map<nat, Peer>,
                            s: Agent.State, xs: seq<Coherence.Sync>, fates: seq<Coherence.Fate>)
    requires Sound(db) && MoveBlock(db, user, b, to) == Done(d) && FromTunnel(db, b) == Some(from) && to != Some(from)
    requires PeersOk(db, peers) && from in peers && peers[from].key !in s.meta && peers[from].key !in s.dev
    requires PushList(d, peers, Some(from), to, xs) && |fates| == |xs| && AllDelivered(fates)
    ensures peers[from].key in Coherence.PushSyncs(s, xs, fates).dev <==> db.subs[Tunnel(from)].status != Closed
  {
    assert LiveBlock(db, b);
    var c := BlockHasCidr(db, b);
    MoveBlockIsMoved(db, user, b, to, d, c);
    MovedRevivesIff(db, d, from, to, c, peers, s, xs, fates);
  }

  /** A suspended tunnel with one paid address, in a pool of four. */
  function SuspendedHolder(at: Option<nat>): Db {
    var range := Plans.Range(4, 4);
    Db(Books(map[], []),
       map[Tunnel(0) := Sub(Some(0), Suspended, Some(1), Some(0), Some(0), Some(GRACE)),
           Ip(5) := Sub(Some(0), Current, Some(1), Some(CYCLE), None, None)],
       map[5 := Seat(0, at, None)], map[],
       map[0 := Pool(4, 4, [Plans.Plan(range, Plans.Single)], 3, 1)], map[0 := 0])
  }

  lemma HolderSound()
    ensures Sound(SuspendedHolder(Some(0)))
  {
    var db := SuspendedHolder(Some(0));
    assert SeatOk(db, 5);
    var range := Plans.Range(4, 4);
    assert Plans.IsPow2(4) by { assert Pow2(2) == 4; }
    assert Plans.PlanOk(range, Plans.Plan(range, Plans.Single));
  }

  lemma HolderMoves()
    ensures MoveIp(SuspendedHolder(Some(0)), 0, 5, None) == Done(SuspendedHolder(None))
  {
    assert Reseat(SuspendedHolder(Some(0)).seats, {5}, None) == SuspendedHolder(None).seats;
  }

  /** Its peer was gone from the agent, the customer detaches the address, and the peer is back. */
  lemma RevivedExample()
    ensures var db, x := SuspendedHolder(Some(0)), Coherence.Sync(Agent.Key(0), Agent.Bare(1), []);
            && Sound(db) && db.subs[Tunnel(0)].status == Suspended
            && MoveIp(db, 0, 5, None) == Done(SuspendedHolder(None))
            && PushList(SuspendedHolder(None), map[0 := Peer(Agent.Key(0), 1)], Some(0), None, [x])
            && Agent.Key(0) in Coherence.PushSyncs(Agent.State(map[], map[], {}), [x], [Coherence.Delivered]).dev
  {
    var db, d := SuspendedHolder(Some(0)), SuspendedHolder(None);
    var x := Coherence.Sync(Agent.Key(0), Agent.Bare(1), []);
    var peers := map[0 := Peer(Agent.Key(0), 1)];
    HolderSound();
    HolderMoves();
    assert ListFor(d, 0, []) by { assert forall a: nat :: !Attached(d, 0, a); }
    assert PushList(d, peers, Some(0), None, [x]);
    MoveIpRevivesIff(db, 0, 5, 0, None, d, peers, Agent.State(map[], map[], {}), [x], [Coherence.Delivered]);
  }
}

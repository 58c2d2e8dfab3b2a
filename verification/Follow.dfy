/** An agent that follows the database over whole runs: database changes followed by drift passes, and
    moves followed by their pushes (packages/provisioning/src/drift.ts, public-ip.ts and ip-block.ts). */
module Follow {
  import opened Common
  import opened Ledger
  import opened Tables
  import opened Placement
  import opened Runs
  import opened Grouping
  import opened Moves
  import Agent
  import Coherence
  import Drift
  import Reachable

  // ----- a pass keeps the agent coherent -----

  ghost predicate AllActive(s: Agent.State) {
    forall k :: k in s.meta ==> s.meta[k].status == Agent.Active
  }

  ghost predicate NoHandover(s: Agent.State, ts: seq<Drift.Want>) {
    forall b, p :: 0 <= b < |ts| ==> !Drift.LateHandover(s, ts, b, p)
  }

  lemma CoherentKeys(s: Agent.State)
    requires Coherence.Coherent(s)
    ensures Coherence.RealKeys(s)
  {
    forall k | k in s.dev ensures k.Key? { assert Coherence.PeerCoherent(s, k); }
  }

  lemma {:induction false} PushActive(s: Agent.State, kernel: map<Agent.PubKey, Agent.Report>, ts: seq<Drift.Want>)
    requires AllActive(s)
    ensures AllActive(Drift.PushAll(s, kernel, ts))
    decreases |ts|
  {
    if ts != [] { PushActive(s, kernel, ts[..|ts| - 1]); }
  }

  lemma {:induction false} DeleteActive(s: Agent.State, ks: seq<Agent.PubKey>)
    requires AllActive(s)
    ensures AllActive(Drift.DeleteAll(s, ks))
    decreases |ks|
  {
    if ks != [] { DeleteActive(s, ks[..|ks| - 1]); }
  }

  lemma {:induction false} DeleteForgets(s: Agent.State, ks: seq<Agent.PubKey>, k: Agent.PubKey)
    requires k.Key? && (k in ks || k !in s.meta)
    ensures k !in Drift.DeleteAll(s, ks).meta
    decreases |ks|
  {
    var n := |ks| - 1;
    if n >= 0 {
      assert ks == ks[..n] + [ks[n]];
      if k != ks[n] { DeleteForgets(s, ks[..n], k); }
    }
  }

  /** The peer of a row that a pass settled. */
  ghost predicate AsWanted(s: Agent.State, w: Drift.Want) {
    && Drift.Settled(s, w) && s.meta[w.key].status == Agent.Active && w.key.Key?
    && Agent.AllParse([w.priv] + w.pubs) && s.dev[w.key] == Agent.Allowed(w.priv, w.pubs)
  }

  /** The device and the metadata hold exactly the rows. */
  ghost predicate HoldsRows(s: Agent.State, ts: seq<Drift.Want>) {
    && s.dev.Keys == Drift.KeysOf(ts) && s.meta.Keys == Drift.KeysOf(ts)
    && forall i :: 0 <= i < |ts| ==> AsWanted(s, ts[i])
  }

  lemma PassMeta(s: Agent.State, ts: seq<Drift.Want>, ks: seq<Agent.PubKey>, k: Agent.PubKey)
    requires Coherence.Coherent(s) && Drift.Orphans(s, ts, ks) && k in Drift.Pass(s, ts, ks).meta
    ensures k in Drift.KeysOf(ts)
  {
    if k !in Drift.KeysOf(ts) {
      Drift.CoherentStart(s, ts);
      Drift.PushFrame(s, Agent.Reported(s), ts, k);
      var mid := Drift.PushAll(s, Agent.Reported(s), ts);
      if k in s.meta {
        assert Coherence.PeerCoherent(s, k);
        DeleteForgets(mid, ks, k);
      } else {
        Drift.DeleteFrame(mid, ks, k);
      }
    }
  }

  lemma PassHoldsRows(s: Agent.State, ts: seq<Drift.Want>, ks: seq<Agent.PubKey>)
    requires Coherence.Coherent(s) && AllActive(s) && Drift.Desired(ts) && Drift.Apart(ts) && Drift.Orphans(s, ts, ks)
    ensures HoldsRows(Drift.Pass(s, ts, ks), ts) && AllActive(Drift.Pass(s, ts, ks))
  {
    CoherentKeys(s);
    Drift.GoodStarts(s, ts);
    Drift.PassConverges(s, ts, ks);
    Drift.DataPlaneConverges(s, ts, ks);
    PushActive(s, Agent.Reported(s), ts);
    DeleteActive(Drift.PushAll(s, Agent.Reported(s), ts), ks);
    var end := Drift.Pass(s, ts, ks);
    forall k ensures k in end.meta <==> k in Drift.KeysOf(ts) {
      if k in end.meta { PassMeta(s, ts, ks, k); }
      if k in Drift.KeysOf(ts) {
        var i := RowOf(ts, k);
        assert Drift.Settled(end, ts[i]);
      }
    }
    assert end.meta.Keys == Drift.KeysOf(ts);
  }

  lemma RowOf(ts: seq<Drift.Want>, k: Agent.PubKey) returns (i: nat)
    requires k in Drift.KeysOf(ts)
    ensures i < |ts| && ts[i].key == k
  {
    var w :| w in ts && w.key == k;
    i :| 0 <= i < |ts| && ts[i] == w;
  }

  lemma SettledMeta(s: Agent.State, w: Drift.Want)
    requires AsWanted(s, w)
    ensures Coherence.PeerCoherent(s, w.key) && Coherence.AllowedOf(s.meta[w.key]) == Agent.Allowed(w.priv, w.pubs)
    ensures Agent.Prefixes(s.meta[w.key].pubs) == Agent.Prefixes(w.pubs)
  {
    var m := s.meta[w.key];
    Drift.SameTexts(m.pubs, w.pubs);
    Coherence.PrefixesSplit(w.priv, w.pubs);
    forall x | x in [m.priv] + m.pubs ensures x in [w.priv] + w.pubs { }
    Coherence.PrefixesSplit(m.priv, m.pubs);
  }

  lemma RowsCoherent(s: Agent.State, ts: seq<Drift.Want>)
    requires HoldsRows(s, ts) && Drift.Apart(ts)
    ensures Coherence.DeviceCoherent(s)
  {
    forall k | k in s.meta ensures Coherence.PeerCoherent(s, k) {
      var i := RowOf(ts, k);
      SettledMeta(s, ts[i]);
    }
    forall k, l | k in s.meta && l in s.meta && k != l
      ensures Coherence.AllowedOf(s.meta[k]) !! Coherence.AllowedOf(s.meta[l])
    {
      var i := RowOf(ts, k);
      var j := RowOf(ts, l);
      SettledMeta(s, ts[i]);
      SettledMeta(s, ts[j]);
    }
  }

  lemma RowsServed(s: Agent.State, ts: seq<Drift.Want>, p: Agent.Prefix)
    requires HoldsRows(s, ts)
    ensures Coherence.Served(s, p) <==> Drift.Wanted(ts, p)
  {
    if Coherence.Served(s, p) {
      var k :| Coherence.Serves(s, k, p);
      var i := RowOf(ts, k);
      SettledMeta(s, ts[i]);
    }
    if Drift.Wanted(ts, p) {
      var i :| 0 <= i < |ts| && p in Agent.Prefixes(ts[i].pubs);
      SettledMeta(s, ts[i]);
      assert Coherence.Serves(s, ts[i].key, p);
    }
  }

  lemma RowsCoherentIff(s: Agent.State, ts: seq<Drift.Want>)
    requires HoldsRows(s, ts) && Drift.Apart(ts)
    ensures Coherence.Coherent(s) <==> forall p :: p in s.routes <==> Drift.Wanted(ts, p)
  {
    RowsCoherent(s, ts);
    forall p ensures Coherence.Served(s, p) <==> Drift.Wanted(ts, p) { RowsServed(s, ts, p); }
  }

  /** A pass takes a coherent agent without suspended peers to such an agent exactly when no prefix is
      handed over late. */
  lemma PassCoherentIff(s: Agent.State, ts: seq<Drift.Want>, ks: seq<Agent.PubKey>)
    requires Coherence.Coherent(s) && AllActive(s) && Drift.Desired(ts) && Drift.Apart(ts) && Drift.Orphans(s, ts, ks)
    ensures AllActive(Drift.Pass(s, ts, ks))
    ensures Coherence.Coherent(Drift.Pass(s, ts, ks)) <==> NoHandover(s, ts)
  {
    PassHoldsRows(s, ts, ks);
    RowsCoherentIff(Drift.Pass(s, ts, ks), ts);
    CoherentKeys(s);
    Drift.RoutesRightIff(s, ts, ks);
  }

  // ----- a pass brings the agent in line with the database -----

  lemma RowInSync(db: Db, peers: map<nat, Peer>, s: Agent.State, t: nat, w: Drift.Want)
    requires RowFor(db, peers, t, w) && AsWanted(s, w)
    ensures PeerInSync(db, peers, s, t)
  {
    SettledMeta(s, w);
    ListPrefixes(db, t, w.pubs);
  }

  lemma RowsKnown(db: Db, peers: map<nat, Peer>, ts: seq<Drift.Want>, ids: seq<nat>, s: Agent.State)
    requires Queried(db, peers, ts, ids) && HoldsRows(s, ts)
    ensures Known(peers, s)
  {
    forall k | k in s.meta ensures exists t :: t in peers && peers[t].key == k {
      var i := RowOf(ts, k);
      assert RowFor(db, peers, ids[i], ts[i]);
    }
  }

  lemma RowsInSync(db: Db, peers: map<nat, Peer>, ts: seq<Drift.Want>, ids: seq<nat>, s: Agent.State)
    requires PeersOk(db, peers) && Queried(db, peers, ts, ids) && HoldsRows(s, ts) && Coherence.Coherent(s)
    ensures AgentInSync(db, peers, s)
  {
    RowsKnown(db, peers, ts, ids, s);
    forall t | t in peers ensures PeerInSync(db, peers, s, t) {
      if peers[t].key in s.meta {
        QueriedIsActive(db, peers, ts, ids, t);
        var i := ActiveIsQueried(db, peers, ts, ids, t);
        RowInSync(db, peers, s, t, ts[i]);
      }
    }
  }

  /** One pass over the rows of a sound database: afterwards the agent is in sync with it exactly when
      no prefix is handed over late. */
  lemma PassInSyncIff(db: Db, peers: map<nat, Peer>, ts: seq<Drift.Want>, ids: seq<nat>, s: Agent.State,
                      ks: seq<Agent.PubKey>)
    requires Sound(db) && PeersOk(db, peers) && Queried(db, peers, ts, ids)
    requires Coherence.Coherent(s) && AllActive(s) && Drift.Orphans(s, ts, ks)
    ensures AllActive(Drift.Pass(s, ts, ks))
    ensures AgentInSync(db, peers, Drift.Pass(s, ts, ks)) <==> NoHandover(s, ts)
  {
    QueryIsDesired(db, peers, ts, ids);
    PassCoherentIff(s, ts, ks);
    PassHoldsRows(s, ts, ks);
    if NoHandover(s, ts) { RowsInSync(db, peers, ts, ids, Drift.Pass(s, ts, ks)); }
  }

  // ----- runs -----

  /** The database, the WireGuard tunnels of one gateway, and its agent. */
  datatype World = World(db: Db, peers: map<nat, Peer>, s: Agent.State)

  /** A move with its pushes, or any transactions (purchases, ticks, cancellations, ...) and then a pass;
      the pass sees the tunnels of the gateway as they are by then. */
  datatype Turn =
    | Move(user: User, a: Agent.Addr, to: Option<nat>, xs: seq<Coherence.Sync>, fates: seq<Coherence.Fate>)
    | MoveAll(user: User, b: nat, to: Option<nat>, xs: seq<Coherence.Sync>, fates: seq<Coherence.Fate>)
    | Reconcile(es: seq<Event>, ts: seq<Drift.Want>, ids: seq<nat>, ks: seq<Agent.PubKey>)

  ghost predicate Pushed(w: World, from: Option<nat>, to: Option<nat>, xs: seq<Coherence.Sync>,
                         fates: seq<Coherence.Fate>, v: World)
  {
    && from != to && v.peers == w.peers && PushList(v.db, w.peers, from, to, xs) && |fates| == |xs|
    && v.s == Coherence.PushSyncs(w.s, xs, fates)
  }

  ghost predicate Turns(w: World, x: Turn, v: World) {
    match x
    case Move(user, a, to, xs, fates) =>
      MoveIp(w.db, user, a, to) == Done(v.db) && Pushed(w, w.db.seats[a].tunnel, to, xs, fates, v)
    case MoveAll(user, b, to, xs, fates) =>
      MoveBlock(w.db, user, b, to) == Done(v.db) && Pushed(w, FromTunnel(w.db, b), to, xs, fates, v)
    case Reconcile(es, ts, ids, ks) =>
      && TimelyRun(w.db, es) && v.db == Run(w.db, es) && PeersOk(v.db, v.peers) && Queried(v.db, v.peers, ts, ids)
      && Drift.Orphans(w.s, ts, ks) && NoHandover(w.s, ts) && v.s == Drift.Pass(w.s, ts, ks)
  }

  /** No push of the turn failed. */
  ghost predicate Complete(x: Turn) {
    x.Reconcile? || AllDelivered(x.fates)
  }

  ghost predicate Steady(w: World) {
    Sound(w.db) && PeersOk(w.db, w.peers) && Coherence.Coherent(w.s) && AllActive(w.s)
  }

  ghost predicate Follows(w: World) {
    Steady(w) && AgentInSync(w.db, w.peers, w.s)
  }

  lemma {:induction false} PushSyncsActive(s: Agent.State, xs: seq<Coherence.Sync>, fates: seq<Coherence.Fate>)
    requires AllActive(s) && |fates| == |xs|
    ensures AllActive(Coherence.PushSyncs(s, xs, fates))
    decreases |xs|
  {
    if xs != [] {
      PushSyncsActive(Agent.Updated(s, xs[0].key, xs[0].priv, xs[0].pubs).0, xs[1..], fates[1..]);
    }
  }

  lemma PushedFollows(w: World, from: Option<nat>, to: Option<nat>, c: Agent.Prefix, xs: seq<Coherence.Sync>,
                      fates: seq<Coherence.Fate>, v: World)
    requires Follows(w) && Moved(w.db, v.db, from, to, c) && Pushed(w, from, to, xs, fates, v)
    ensures Steady(v) && (AllDelivered(fates) ==> Follows(v))
  {
    MovedKeepsAgent(w.db, v.db, from, to, c, w.peers, w.s, xs, fates);
    PeersStillOk(w.db, v.db, w.peers);
    PushSyncsActive(w.s, xs, fates);
  }

  lemma MoveFollows(w: World, x: Turn, v: World)
    requires Follows(w) && !x.Reconcile? && Turns(w, x, v)
    ensures Steady(v) && (Complete(x) ==> Follows(v))
  {
    if x.Move? {
      var c := Agent.Prefix(x.a, 32);
      MoveIpIsMoved(w.db, x.user, x.a, x.to, v.db, c);
      PushedFollows(w, w.db.seats[x.a].tunnel, x.to, c, x.xs, x.fates, v);
    } else {
      assert LiveBlock(w.db, x.b);
      var c := BlockHasCidr(w.db, x.b);
      MoveBlockIsMoved(w.db, x.user, x.b, x.to, v.db, c);
      PushedFollows(w, FromTunnel(w.db, x.b), x.to, c, x.xs, x.fates, v);
    }
  }

  lemma ReconcileFollows(w: World, x: Turn, v: World)
    requires Steady(w) && x.Reconcile? && Turns(w, x, v)
    ensures Follows(v)
  {
    OwnershipKept(w.db, x.es);
    PassInSyncIff(v.db, v.peers, x.ts, x.ids, w.s, x.ks);
  }

  /** A world between turns; `ok` says that every call of the last turn arrived. */
  ghost predicate Between(w: World, ok: bool) {
    Steady(w) && (ok ==> Follows(w))
  }

  lemma TurnFollows(w: World, ok: bool, x: Turn, v: World)
    requires Between(w, ok) && Turns(w, x, v) && (x.Reconcile? || ok)
    ensures Between(v, Complete(x))
  {
    if x.Reconcile? { ReconcileFollows(w, x, v); } else { MoveFollows(w, x, v); }
  }

  ghost predicate OkAfter(xs: seq<Turn>, n: nat)
    requires n <= |xs|
  {
    n == 0 || Complete(xs[n - 1])
  }

  ghost predicate TurnAt(ws: seq<World>, xs: seq<Turn>, i: nat)
    requires |ws| == |xs| + 1 && i < |xs|
  {
    Turns(ws[i], xs[i], ws[i + 1]) && (xs[i].Reconcile? || OkAfter(xs, i))
  }

  /** The worlds of a run.  After a push that failed, a pass comes before the next move. */
  ghost predicate TurnRun(ws: seq<World>, xs: seq<Turn>) {
    |ws| == |xs| + 1 && forall i :: 0 <= i < |xs| ==> TurnAt(ws, xs, i)
  }

  ghost predicate InOrder(ws: seq<World>, xs: seq<Turn>, n: nat)
    requires |ws| == |xs| + 1 && n <= |xs|
  {
    Between(ws[n], OkAfter(xs, n))
  }

  lemma NextFollows(ws: seq<World>, xs: seq<Turn>, n: nat)
    requires TurnRun(ws, xs) && n < |xs|
    ensures InOrder(ws, xs, n) ==> InOrder(ws, xs, n + 1)
  {
    assert TurnAt(ws, xs, n);
    if InOrder(ws, xs, n) { TurnFollows(ws[n], OkAfter(xs, n), xs[n], ws[n + 1]); }
  }

  lemma {:induction false} Climb(holds: seq<bool>, n: nat)
    requires n < |holds| && holds[0] && forall i :: 0 <= i < n && holds[i] ==> holds[i + 1]
    ensures holds[n]
    decreases n
  {
    if n > 0 { Climb(holds, n - 1); }
  }

  /** For every state between turns, whether it is in order. */
  lemma OrderBits(ws: seq<World>, xs: seq<Turn>) returns (holds: seq<bool>)
    requires TurnRun(ws, xs)
    ensures |holds| == |ws|
    ensures forall i :: 0 <= i < |ws| ==> holds[i] == InOrder(ws, xs, i)
    ensures forall i :: 0 <= i < |xs| && holds[i] ==> holds[i + 1]
  {
    holds := seq(|ws|, i requires 0 <= i < |ws| => InOrder(ws, xs, i));
    forall i | 0 <= i < |xs| && holds[i] ensures holds[i + 1] { NextFollows(ws, xs, i); }
  }

  /** Over every such run the agent stays coherent, and it is in sync with the database after every turn
      whose calls all arrived. */
  lemma RunFollows(ws: seq<World>, xs: seq<Turn>, n: nat)
    requires TurnRun(ws, xs) && Between(ws[0], true) && n <= |xs|
    ensures Between(ws[n], OkAfter(xs, n))
  {
    assert InOrder(ws, xs, 0);
    var holds := OrderBits(ws, xs);
    Climb(holds, n);
    assert InOrder(ws, xs, n);
  }

  /** Such runs can start with no rows, no tunnels and a fresh agent. */
  lemma StartFollows()
    ensures Between(World(Reachable.Empty(), map[], Agent.State(map[], map[], {})), true)
  {
    Reachable.EmptyInOrder(0);
  }
}

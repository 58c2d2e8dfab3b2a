/** What the agent keeps over whole runs of peer operations: routes and AllowedIPs follow the
    metadata as long as no prefix is handed to a peer while another one still records it. */
module Coherence {
  import opened Common
  import opened Agent

  ghost predicate Records(s: State, k: PubKey, p: Prefix) {
    k in s.meta && p in Prefixes(s.meta[k].pubs)
  }

  /** Peer k is entitled to the route for p. */
  ghost predicate Serves(s: State, k: PubKey, p: Prefix) {
    Records(s, k, p) && s.meta[k].status == Active
  }

  ghost predicate Served(s: State, p: Prefix) {
    exists k :: Serves(s, k, p)
  }

  function AllowedOf(m: Meta): set<Prefix> {
    Allowed(m.priv, m.pubs)
  }

  ghost predicate PeerCoherent(s: State, k: PubKey)
    requires k in s.meta && k in s.dev
  {
    var m := s.meta[k];
    k.Key? && AllParse([m.priv] + m.pubs) && s.dev[k] == if m.status == Active then AllowedOf(m) else {}
  }

  /** Every peer has metadata, its AllowedIPs follow it, and no two peers record the same prefix. */
  ghost predicate DeviceCoherent(s: State) {
    && s.meta.Keys == s.dev.Keys
    && (forall k :: k in s.meta ==> PeerCoherent(s, k))
    && (forall k, l :: k in s.meta && l in s.meta && k != l ==> AllowedOf(s.meta[k]) !! AllowedOf(s.meta[l]))
  }

  /** The route table is the union of the active peers' public prefixes. */
  ghost predicate RoutesCoherent(s: State) {
    forall p :: p in s.routes <==> Served(s, p)
  }

  ghost predicate Coherent(s: State) {
    DeviceCoherent(s) && RoutesCoherent(s)
  }

  datatype Op =
    | Create(k: PubKey, peerId: string, priv: Text, pubs: seq<Text>)
    | Update(k: PubKey, priv: Text, pubs: seq<Text>)
    | Delete(k: PubKey)
    | Suspend(k: PubKey)
    | Resume(k: PubKey)

  function Apply(s: State, op: Op): State {
    match op
    case Create(k, id, priv, pubs) => Created(s, k, id, priv, pubs).0
    case Update(k, priv, pubs) => Updated(s, k, priv, pubs).0
    case Delete(k) => Deleted(s, k)
    case Suspend(k) => SuspendedPeer(s, k).0
    case Resume(k) => Resumed(s, k).0
  }

  function Run(s: State, ops: seq<Op>): State
    decreases |ops|
  {
    if ops == [] then s else Run(Apply(s, ops[0]), ops[1..])
  }

  /** Nobody but k records any of these addresses. */
  ghost predicate Unclaimed(s: State, k: PubKey, ips: set<Prefix>) {
    forall l :: l in s.meta && l != k ==> AllowedOf(s.meta[l]) !! ips
  }

  /** The caller's side of the bargain, checkable before the call: creates use a new key, updates go
      to active peers, and a prefix is given away only after its last holder let go of it. */
  ghost predicate Orderly(s: State, op: Op) {
    match op
    case Create(k, _, priv, pubs) => k !in s.meta && (AllParse([priv] + pubs) ==> Unclaimed(s, k, Allowed(priv, pubs)))
    case Update(k, priv, pubs) =>
      k.BadKey? ||
      (k in s.meta && (AllParse([priv] + pubs) ==> s.meta[k].status == Active && Unclaimed(s, k, Allowed(priv, pubs))))
    case _ => true
  }

  ghost predicate OrderlyRun(s: State, ops: seq<Op>)
    decreases |ops|
  {
    ops == [] || (Orderly(s, ops[0]) && OrderlyRun(Apply(s, ops[0]), ops[1..]))
  }

  lemma PrefixesSplit(priv: Text, pubs: seq<Text>)
    ensures Prefixes(pubs) <= Allowed(priv, pubs)
    ensures AllParse([priv] + pubs) ==> AllParse(pubs) && Allowed(priv, pubs) == Prefixes(pubs) + Prefixes([priv])
    ensures AllParse([priv] + pubs) ==> Readable([priv] + pubs) == 1 + |pubs| && Allowed(priv, pubs) != {}
  {
    assert forall t :: t in pubs ==> t in [priv] + pubs;
    if AllParse([priv] + pubs) {
      assert priv in [priv] + pubs;
      assert Parse(priv).value in Allowed(priv, pubs);
    }
  }

  /** Two coherent peers never serve the same prefix. */
  lemma ServesUnique(s: State, k: PubKey, l: PubKey, p: Prefix)
    requires Coherent(s) && Records(s, k, p) && Records(s, l, p)
    ensures k == l
  {
    PrefixesSplit(s.meta[k].priv, s.meta[k].pubs);
    PrefixesSplit(s.meta[l].priv, s.meta[l].pubs);
  }

  lemma RemovedPrefixes(had: seq<Text>, cur: seq<Text>, p: Prefix)
    ensures p in Prefixes(had) && p !in Prefixes(cur) ==> p in Prefixes(Removed(had, cur))
    ensures p in Prefixes(Removed(had, cur)) ==> p in Prefixes(had)
  {
  }

  /** Reconfiguring one peer with addresses nobody else records leaves the other peers alone. */
  lemma ConfigureKeeps(s: State, s': State, k: PubKey, m: Meta, ips: set<Prefix>)
    requires DeviceCoherent(s) && Unclaimed(s, k, ips) && Unclaimed(s, k, AllowedOf(m))
    requires s'.meta == s.meta[k := m] && s'.dev == Configure(s.dev, k, ips)
    requires PeerCoherent(s', k)
    ensures DeviceCoherent(s')
  {
    forall l | l in s'.meta ensures PeerCoherent(s', l) {
      if l != k {
        assert PeerCoherent(s, l);
        assert s.dev[l] <= AllowedOf(s.meta[l]);
        assert s'.dev[l] == s.dev[l];
      }
    }
  }

  lemma GainKeeps(s: State, s': State, k: PubKey, m: Meta)
    requires RoutesCoherent(s) && m.status == Active
    requires s'.meta == s.meta[k := m] && s'.routes == s.routes + Prefixes(m.pubs)
    requires k in s.meta ==> s.meta[k].pubs == m.pubs
    ensures RoutesCoherent(s')
  {
    forall p ensures p in s'.routes <==> Served(s', p) {
      assert Serves(s', k, p) <==> p in Prefixes(m.pubs);
      assert forall l :: l != k ==> (Serves(s', l, p) <==> Serves(s, l, p));
      assert p in s.routes <==> Served(s, p);
    }
  }

  lemma SwapKeeps(s: State, s': State, k: PubKey, m: Meta)
    requires Coherent(s) && m.status == Active && k in s.meta
    requires s'.meta == s.meta[k := m]
    requires s'.routes == s.routes - Prefixes(Removed(s.meta[k].pubs, m.pubs)) + Prefixes(m.pubs)
    ensures RoutesCoherent(s')
  {
    var gone := Removed(s.meta[k].pubs, m.pubs);
    forall p ensures p in s'.routes <==> Served(s', p) {
      assert Serves(s', k, p) <==> p in Prefixes(m.pubs);
      assert forall l :: l != k ==> (Serves(s', l, p) <==> Serves(s, l, p));
      RemovedPrefixes(s.meta[k].pubs, m.pubs, p);
      if p in Prefixes(gone) {
        assert Records(s, k, p);
        forall l | Serves(s, l, p) ensures l == k { ServesUnique(s, k, l, p); }
      }
      assert p in s.routes <==> Served(s, p);
    }
  }

  lemma CreateKeeps(s: State, k: PubKey, id: string, priv: Text, pubs: seq<Text>)
    requires Coherent(s) && Orderly(s, Create(k, id, priv, pubs))
    ensures Coherent(Created(s, k, id, priv, pubs).0)
  {
    if k.Key? && AllParse([priv] + pubs) {
      PrefixesSplit(priv, pubs);
      var m := Meta(id, priv, pubs, Active);
      ConfigureKeeps(s, Created(s, k, id, priv, pubs).0, k, m, AllowedOf(m));
      GainKeeps(s, Created(s, k, id, priv, pubs).0, k, m);
    }
  }

  lemma UpdateKeeps(s: State, k: PubKey, priv: Text, pubs: seq<Text>)
    requires Coherent(s) && Orderly(s, Update(k, priv, pubs))
    ensures Coherent(Updated(s, k, priv, pubs).0)
  {
    if k.BadKey? {
    } else if AllParse([priv] + pubs) {
      PrefixesSplit(s.meta[k].priv, s.meta[k].pubs);
      UpdateIs(s, k, priv, pubs);
      var m := s.meta[k].(priv := priv, pubs := pubs);
      ConfigureKeeps(s, Updated(s, k, priv, pubs).0, k, m, AllowedOf(m));
      SwapKeeps(s, Updated(s, k, priv, pubs).0, k, m);
    } else {
      assert s.meta[k := s.meta[k]] == s.meta;
    }
  }

  /** An update that parses succeeds, and this is the state it leaves. */
  lemma UpdateIs(s: State, k: PubKey, priv: Text, pubs: seq<Text>)
    requires k.Key? && StoredParseAt(s, k) && AllParse([priv] + pubs)
    ensures var m := MetaOrNew(s, k);
            Updated(s, k, priv, pubs) ==
            (State(s.meta[k := m.(priv := priv, pubs := pubs)], Configure(s.dev, k, Allowed(priv, pubs)),
                   s.routes - Prefixes(Removed(m.pubs, pubs)) + Prefixes(pubs)), Ok)
  {
    var m := MetaOrNew(s, k);
    PrefixesSplit(priv, pubs);
    ReadableAll(Removed(m.pubs, pubs));
    assert s.meta[k := m][k := m.(priv := priv, pubs := pubs)] == s.meta[k := m.(priv := priv, pubs := pubs)];
  }

  ghost predicate StoredParseAt(s: State, k: PubKey) {
    k in s.meta ==> AllParse(s.meta[k].pubs)
  }

  lemma DropKeeps(s: State, s': State, k: PubKey)
    requires Coherent(s) && k in s.meta
    requires s'.routes == s.routes - Prefixes(s.meta[k].pubs)
    requires forall l :: l != k ==> (l in s'.meta <==> l in s.meta) && (l in s.meta ==> s'.meta[l] == s.meta[l])
    requires k in s'.meta ==> s'.meta[k].status == Suspended
    ensures forall p :: p in s'.routes <==> Served(s', p)
  {
    forall p ensures p in s'.routes <==> Served(s', p) {
      assert !Serves(s', k, p);
      assert forall l :: l != k ==> (Serves(s', l, p) <==> Serves(s, l, p));
      assert p in s.routes <==> Served(s, p);
      if p in Prefixes(s.meta[k].pubs) {
        assert Records(s, k, p);
        forall l | Serves(s, l, p) ensures l == k { ServesUnique(s, k, l, p); }
      }
    }
  }

  lemma DeleteKeeps(s: State, k: PubKey)
    requires Coherent(s)
    ensures Coherent(Deleted(s, k))
  {
    if k in s.meta {
      PrefixesSplit(s.meta[k].priv, s.meta[k].pubs);
      ReadableAll(s.meta[k].pubs);
      DropKeeps(s, Deleted(s, k), k);
    } else {
      assert s.dev - {k} == s.dev;
    }
  }

  lemma SuspendKeeps(s: State, k: PubKey)
    requires Coherent(s)
    ensures Coherent(SuspendedPeer(s, k).0)
  {
    if k in s.meta {
      PrefixesSplit(s.meta[k].priv, s.meta[k].pubs);
      ReadableAll(s.meta[k].pubs);
      ConfigureKeeps(s, SuspendedPeer(s, k).0, k, s.meta[k].(status := Suspended), {});
      DropKeeps(s, SuspendedPeer(s, k).0, k);
    }
  }

  lemma ResumeKeeps(s: State, k: PubKey)
    requires Coherent(s)
    ensures Coherent(Resumed(s, k).0)
  {
    if k in s.meta {
      var m := s.meta[k].(status := Active);
      PrefixesSplit(m.priv, m.pubs);
      ConfigureKeeps(s, Resumed(s, k).0, k, m, AllowedOf(m));
      GainKeeps(s, Resumed(s, k).0, k, m);
    }
  }

  lemma StepKeepsCoherent(s: State, op: Op)
    requires Coherent(s) && Orderly(s, op)
    ensures Coherent(Apply(s, op))
  {
    match op
    case Create(k, id, priv, pubs) => CreateKeeps(s, k, id, priv, pubs);
    case Update(k, priv, pubs) => UpdateKeeps(s, k, priv, pubs);
    case Delete(k) => DeleteKeeps(s, k);
    case Suspend(k) => SuspendKeeps(s, k);
    case Resume(k) => ResumeKeeps(s, k);
  }

  /** Over every orderly run the route table is the union of the active peers' public prefixes and
      suspended peers have no AllowedIPs at all. */
  lemma {:induction false} RunKeepsCoherent(s: State, ops: seq<Op>)
    requires Coherent(s) && OrderlyRun(s, ops)
    ensures Coherent(Run(s, ops))
    decreases |ops|
  {
    if ops != [] {
      StepKeepsCoherent(s, ops[0]);
      RunKeepsCoherent(Apply(s, ops[0]), ops[1..]);
    }
  }

  /** Device keys are keys the kernel accepted. */
  ghost predicate RealKeys(s: State) {
    forall k :: k in s.dev ==> k.Key?
  }

  lemma CreateReadable(s: State, k: PubKey, id: string, priv: Text, pubs: seq<Text>)
    requires StoredParse(s) && RealKeys(s)
    ensures StoredParse(Created(s, k, id, priv, pubs).0) && RealKeys(Created(s, k, id, priv, pubs).0)
  {
    if AllParse([priv] + pubs) { PrefixesSplit(priv, pubs); }
  }

  lemma UpdateReadable(s: State, k: PubKey, priv: Text, pubs: seq<Text>)
    requires StoredParse(s) && RealKeys(s)
    ensures StoredParse(Updated(s, k, priv, pubs).0) && RealKeys(Updated(s, k, priv, pubs).0)
  {
    if AllParse([priv] + pubs) { PrefixesSplit(priv, pubs); }
  }

  lemma StepKeepsReadable(s: State, op: Op)
    requires StoredParse(s) && RealKeys(s)
    ensures StoredParse(Apply(s, op)) && RealKeys(Apply(s, op))
  {
    match op
    case Create(k, id, priv, pubs) => CreateReadable(s, k, id, priv, pubs);
    case Update(k, priv, pubs) => UpdateReadable(s, k, priv, pubs);
    case _ =>
  }

  /** Over every run, orderly or not, stored lists parse and device keys are real keys. */
  lemma {:induction false} RunKeepsReadable(s: State, ops: seq<Op>)
    requires StoredParse(s) && RealKeys(s)
    ensures StoredParse(Run(s, ops)) && RealKeys(Run(s, ops))
    decreases |ops|
  {
    if ops != [] {
      StepKeepsReadable(s, ops[0]);
      RunKeepsReadable(Apply(s, ops[0]), ops[1..]);
    }
  }

  lemma UpdateBreaks(s: State, s': State, k: PubKey, m: Meta)
    requires Coherent(s) && k in s.meta && AllowedOf(m) != {}
    requires m.status == s.meta[k].status
    requires s'.meta == s.meta[k := m] && s'.dev == Configure(s.dev, k, AllowedOf(m))
    requires m.status == Suspended || !Unclaimed(s, k, AllowedOf(m))
    ensures !DeviceCoherent(s')
  {
    if m.status == Suspended {
      assert s'.dev[k] != {};
      assert !PeerCoherent(s', k);
    } else {
      var l :| l in s.meta && l != k && !(AllowedOf(s.meta[l]) !! AllowedOf(m));
      assert s'.meta[l] == s.meta[l] && s'.meta[k] == m;
    }
  }

  /** Exactly when an update of a known peer keeps the agent coherent: the peer is active and no
      other peer still records one of the addresses.  An update of a suspended peer always breaks
      it, because the kernel gets AllowedIPs while the metadata still says suspended. */
  lemma UpdateCoherentIff(s: State, k: PubKey, priv: Text, pubs: seq<Text>)
    requires Coherent(s) && k in s.meta && AllParse([priv] + pubs)
    ensures Coherent(Updated(s, k, priv, pubs).0) <==>
            s.meta[k].status == Active && Unclaimed(s, k, Allowed(priv, pubs))
  {
    if s.meta[k].status == Active && Unclaimed(s, k, Allowed(priv, pubs)) {
      UpdateKeeps(s, k, priv, pubs);
    } else {
      PrefixesSplit(priv, pubs);
      PrefixesSplit(s.meta[k].priv, s.meta[k].pubs);
      UpdateIs(s, k, priv, pubs);
      UpdateBreaks(s, Updated(s, k, priv, pubs).0, k, s.meta[k].(priv := priv, pubs := pubs));
    }
  }

  // ----- moving a prefix between tunnels: the pushes of moveIp and moveIpBlock -----

  /** What becomes of one call to the agent: it may fail before or after taking effect. */
  datatype Fate = Delivered | LostBefore | LostAfter

  datatype Sync = Sync(key: PubKey, priv: Text, pubs: seq<Text>)

  /** pushSyncs: in order, and a call that fails or is refused by the agent stops the rest. */
  function PushSyncs(s: State, syncs: seq<Sync>, fates: seq<Fate>): State
    requires |fates| == |syncs|
    decreases |syncs|
  {
    if syncs == [] || fates[0] == LostBefore then s else
    var (s1, reply) := Updated(s, syncs[0].key, syncs[0].priv, syncs[0].pubs);
    if fates[0] == Delivered && reply == Ok then PushSyncs(s1, syncs[1..], fates[1..]) else s1
  }

  /** Every call arrives and is accepted. */
  ghost predicate AllPushed(s: State, syncs: seq<Sync>, fates: seq<Fate>)
    requires |fates| == |syncs|
    decreases |syncs|
  {
    syncs != [] ==>
      var (s1, reply) := Updated(s, syncs[0].key, syncs[0].priv, syncs[0].pubs);
      fates[0] == Delivered && reply == Ok && AllPushed(s1, syncs[1..], fates[1..])
  }

  method PushSyncsLoop(m: KernelManager, syncs: seq<Sync>, fates: seq<Fate>) returns (ok: bool)
    requires |fates| == |syncs|
    modifies m
    ensures m.View() == PushSyncs(old(m.View()), syncs, fates)
    ensures ok <==> AllPushed(old(m.View()), syncs, fates)
  {
    for i := 0 to |syncs|
      invariant PushSyncs(m.View(), syncs[i..], fates[i..]) == PushSyncs(old(m.View()), syncs, fates)
      invariant AllPushed(m.View(), syncs[i..], fates[i..]) <==> AllPushed(old(m.View()), syncs, fates)
    {
      var x := syncs[i];
      assert syncs[i..][1..] == syncs[i + 1..] && fates[i..][1..] == fates[i + 1..];
      if fates[i] == LostBefore { return false; }
      var reply := m.UpdatePeer(x.key, x.priv, x.pubs);
      if fates[i] == LostAfter || reply != Ok { return false; }
    }
    return true;
  }

  /** An update for a key the agent does not know creates the peer. */
  lemma NewUpdateIsCreate(s: State, x: Sync)
    requires x.key !in s.meta && AllParse([x.priv] + x.pubs)
    ensures Updated(s, x.key, x.priv, x.pubs).0 == Created(s, x.key, "", x.priv, x.pubs).0
  {
    if x.key.Key? {
      UpdateIs(s, x.key, x.priv, x.pubs);
      assert s.routes - Prefixes([]) == s.routes;
      assert Removed([], x.pubs) == [];
    }
  }

  lemma CoherentStored(s: State, k: PubKey)
    requires Coherent(s)
    ensures StoredParseAt(s, k)
  {
    if k in s.meta {
      assert PeerCoherent(s, k);
      PrefixesSplit(s.meta[k].priv, s.meta[k].pubs);
    }
  }

  /** What the push of a list that nobody else claims does to the metadata. */
  ghost predicate Pushes(s: State, x: Sync, s': State) {
    && x.key in s'.meta && x.key in s'.dev && s'.meta == s.meta[x.key := s'.meta[x.key]]
    && s'.meta[x.key].priv == x.priv && s'.meta[x.key].pubs == x.pubs && s'.meta[x.key].status == Active
  }

  /** One push, to a known active peer or to an unknown one: a coherent agent stays coherent. */
  lemma PushKeeps(s: State, x: Sync)
    requires Coherent(s) && x.key.Key? && AllParse([x.priv] + x.pubs)
    requires (x.key in s.meta ==> s.meta[x.key].status == Active) && Unclaimed(s, x.key, Allowed(x.priv, x.pubs))
    ensures Coherent(Updated(s, x.key, x.priv, x.pubs).0) && Pushes(s, x, Updated(s, x.key, x.priv, x.pubs).0)
    ensures Updated(s, x.key, x.priv, x.pubs).1 == Ok
  {
    CoherentStored(s, x.key);
    UpdateIs(s, x.key, x.priv, x.pubs);
    if x.key in s.meta {
      UpdateKeeps(s, x.key, x.priv, x.pubs);
    } else {
      NewUpdateIsCreate(s, x);
      CreateKeeps(s, x.key, "", x.priv, x.pubs);
    }
  }

  /** The new list of a peer records what it recorded before, without c (loser) or with c (gainer). */
  ghost predicate Loses(s: State, x: Sync, c: Prefix) {
    && x.key in s.meta && s.meta[x.key].status == Active && x.priv == s.meta[x.key].priv
    && AllParse(x.pubs) && Prefixes(x.pubs) == Prefixes(s.meta[x.key].pubs) - {c}
  }

  ghost predicate Gains(s: State, x: Sync, c: Prefix) {
    && x.key in s.meta && s.meta[x.key].status == Active && x.priv == s.meta[x.key].priv
    && AllParse(x.pubs) && Prefixes(x.pubs) == Prefixes(s.meta[x.key].pubs) + {c}
  }

  /** A new list for a peer parses, and its AllowedIPs differ from the old ones as the lists do. */
  lemma SyncAllowed(m: Meta, x: Sync)
    requires AllParse([m.priv] + m.pubs) && AllParse(x.pubs) && x.priv == m.priv
    ensures AllParse([x.priv] + x.pubs)
    ensures AllowedOf(m) == Prefixes(m.pubs) + Prefixes([m.priv])
    ensures Allowed(x.priv, x.pubs) == Prefixes(x.pubs) + Prefixes([m.priv])
  {
    AllParseCons(x.priv, m.pubs, x.pubs);
    PrefixesSplit(m.priv, m.pubs);
    PrefixesSplit(x.priv, x.pubs);
  }

  lemma LoserOrderly(s: State, x: Sync, c: Prefix)
    requires Coherent(s) && Loses(s, x, c)
    ensures Orderly(s, Update(x.key, x.priv, x.pubs))
  {
    var m := s.meta[x.key];
    assert PeerCoherent(s, x.key);
    SyncAllowed(m, x);
    assert Allowed(x.priv, x.pubs) <= AllowedOf(m);
  }

  lemma GainerOrderly(s: State, x: Sync, c: Prefix)
    requires Coherent(s) && Gains(s, x, c)
    requires forall l :: l in s.meta && l != x.key ==> c !in AllowedOf(s.meta[l])
    ensures Orderly(s, Update(x.key, x.priv, x.pubs))
  {
    var m := s.meta[x.key];
    assert PeerCoherent(s, x.key);
    SyncAllowed(m, x);
    assert Allowed(x.priv, x.pubs) == AllowedOf(m) + {c};
    forall l | l in s.meta && l != x.key ensures AllowedOf(s.meta[l]) !! Allowed(x.priv, x.pubs) {
      assert AllowedOf(s.meta[l]) !! AllowedOf(m);
    }
  }

  lemma LoserLetsGo(s: State, x: Sync, c: Prefix, l: PubKey)
    requires Coherent(s) && Loses(s, x, c) && Records(s, x.key, c) && c !in Prefixes([x.priv])
    requires l in Updated(s, x.key, x.priv, x.pubs).0.meta
    ensures c !in AllowedOf(Updated(s, x.key, x.priv, x.pubs).0.meta[l])
    ensures l != x.key ==> l in s.meta && Updated(s, x.key, x.priv, x.pubs).0.meta[l] == s.meta[l]
  {
    var m := s.meta[x.key];
    assert PeerCoherent(s, x.key);
    SyncAllowed(m, x);
    UpdateParses(s, x);
    if l != x.key {
      assert AllowedOf(s.meta[l]) !! AllowedOf(m);
    }
  }

  lemma UpdateParses(s: State, x: Sync)
    requires Coherent(s) && x.key in s.meta && AllParse([x.priv] + x.pubs)
    ensures Updated(s, x.key, x.priv, x.pubs).0.meta == s.meta[x.key := s.meta[x.key].(priv := x.priv, pubs := x.pubs)]
    ensures Updated(s, x.key, x.priv, x.pubs).0.dev == Configure(s.dev, x.key, Allowed(x.priv, x.pubs))
    ensures Updated(s, x.key, x.priv, x.pubs).1 == Ok
  {
    assert PeerCoherent(s, x.key);
    PrefixesSplit(s.meta[x.key].priv, s.meta[x.key].pubs);
    UpdateIs(s, x.key, x.priv, x.pubs);
  }

  lemma MoveOrderly(s: State, loser: Sync, gainer: Sync, c: Prefix)
    requires Coherent(s) && loser.key != gainer.key
    requires Records(s, loser.key, c) && c !in Prefixes([loser.priv])
    requires Loses(s, loser, c) && Gains(s, gainer, c)
    ensures Orderly(s, Update(loser.key, loser.priv, loser.pubs))
    ensures var s1 := Updated(s, loser.key, loser.priv, loser.pubs).0;
            Coherent(s1) && Gains(s1, gainer, c) && Orderly(s1, Update(gainer.key, gainer.priv, gainer.pubs))
    ensures Updated(s, loser.key, loser.priv, loser.pubs).1 == Ok
  {
    LoserOrderly(s, loser, c);
    UpdateKeeps(s, loser.key, loser.priv, loser.pubs);
    var s1 := Updated(s, loser.key, loser.priv, loser.pubs).0;
    SyncAllowed(s.meta[loser.key], loser) by { assert PeerCoherent(s, loser.key); }
    UpdateParses(s, loser);
    forall l | l in s1.meta ensures c !in AllowedOf(s1.meta[l]) {
      LoserLetsGo(s, loser, c, l);
    }
    GainerOrderly(s1, gainer, c);
  }

  lemma AllParseCons(priv: Text, had: seq<Text>, now: seq<Text>)
    requires AllParse([priv] + had) && AllParse(now)
    ensures AllParse([priv] + now)
  {
    assert priv in [priv] + had;
  }

  /** moveIp / moveIpBlock push the losing tunnel first, so whatever becomes of the two calls, the
      agent stays coherent; when both arrive, it records the prefix with the gainer alone. */
  lemma MoveKeepsCoherent(s: State, loser: Sync, gainer: Sync, c: Prefix, fates: seq<Fate>)
    requires Coherent(s) && loser.key != gainer.key && |fates| == 2
    requires Records(s, loser.key, c) && c !in Prefixes([loser.priv])
    requires Loses(s, loser, c) && Gains(s, gainer, c)
    ensures Coherent(PushSyncs(s, [loser, gainer], fates))
    ensures fates == [Delivered, Delivered] ==>
              var s' := PushSyncs(s, [loser, gainer], fates);
              Records(s', gainer.key, c) && c in s'.routes && c in s'.dev[gainer.key] &&
              forall k :: k != gainer.key ==> !Records(s', k, c)
  {
    MoveOrderly(s, loser, gainer, c);
    var s1 := Updated(s, loser.key, loser.priv, loser.pubs).0;
    UpdateKeeps(s1, gainer.key, gainer.priv, gainer.pubs);
    MovePushes(s, loser, gainer, fates);
    GainArrives(s1, gainer, c);
  }

  lemma MovePushes(s: State, loser: Sync, gainer: Sync, fates: seq<Fate>)
    requires |fates| == 2
    ensures var s1 := Updated(s, loser.key, loser.priv, loser.pubs).0;
            var s2 := Updated(s1, gainer.key, gainer.priv, gainer.pubs).0;
            var s' := PushSyncs(s, [loser, gainer], fates);
            && (s' == s || s' == s1 || s' == s2)
            && (fates == [Delivered, Delivered] && Updated(s, loser.key, loser.priv, loser.pubs).1 == Ok ==> s' == s2)
  {
    var s1 := Updated(s, loser.key, loser.priv, loser.pubs).0;
    var two, one := [loser, gainer], [gainer];
    assert two[1..] == one && one[1..] == [] && two[0] == loser && one[0] == gainer;
    assert fates[0] == Delivered && Updated(s, loser.key, loser.priv, loser.pubs).1 == Ok ==>
        PushSyncs(s, two, fates) == PushSyncs(s1, one, fates[1..]);
    var s2 := Updated(s1, gainer.key, gainer.priv, gainer.pubs).0;
    assert fates[1..][0] == fates[1];
    assert PushSyncs(s1, one, fates[1..]) == if fates[1] == LostBefore then s1 else s2;
  }

  lemma GainArrives(s: State, x: Sync, c: Prefix)
    requires Coherent(s) && Gains(s, x, c)
    requires Coherent(Updated(s, x.key, x.priv, x.pubs).0)
    ensures var s' := Updated(s, x.key, x.priv, x.pubs).0;
            Records(s', x.key, c) && c in s'.routes && c in s'.dev[x.key] &&
            forall k :: k != x.key ==> !Records(s', k, c)
  {
    assert PeerCoherent(s, x.key);
    SyncAllowed(s.meta[x.key], x);
    UpdateParses(s, x);
    var s' := Updated(s, x.key, x.priv, x.pubs).0;
    assert Serves(s', x.key, c);
    assert Served(s', c);
    forall k | k != x.key ensures !Records(s', k, c) {
      if Records(s', k, c) { ServesUnique(s', k, x.key, c); }
    }
  }

  /** An update withdraws the route of every prefix it drops, whoever else may hold it by now. */
  lemma UpdateWithdraws(s: State, x: Sync, c: Prefix)
    requires x.key.Key? && x.key in s.meta && AllParse(s.meta[x.key].pubs) && AllParse([x.priv] + x.pubs)
    requires Records(s, x.key, c) && c !in Prefixes(x.pubs)
    ensures var s' := Updated(s, x.key, x.priv, x.pubs).0;
            c !in s'.routes && s'.meta == s.meta[x.key := s.meta[x.key].(priv := x.priv, pubs := x.pubs)]
  {
    UpdateIs(s, x.key, x.priv, x.pubs);
    RemovedPrefixes(s.meta[x.key].pubs, x.pubs, c);
  }

  /** The other order does not work: giving the prefix away first and telling the loser afterwards
      deletes the route that the gainer just received. */
  lemma GainerFirstLosesRoute(s: State, loser: Sync, gainer: Sync, c: Prefix)
    requires Coherent(s) && loser.key != gainer.key
    requires Records(s, loser.key, c)
    requires Loses(s, loser, c) && Gains(s, gainer, c)
    ensures var s' := PushSyncs(s, [gainer, loser], [Delivered, Delivered]);
            Records(s', gainer.key, c) && c !in s'.routes && !Coherent(s')
  {
    MovePushes(s, gainer, loser, [Delivered, Delivered]);
    CoherentParses(s, loser.key, loser);
    CoherentParses(s, gainer.key, gainer);
    UpdateParses(s, gainer);
    var s1 := Updated(s, gainer.key, gainer.priv, gainer.pubs).0;
    UpdateWithdraws(s1, loser, c);
    UnroutedIncoherent(Updated(s1, loser.key, loser.priv, loser.pubs).0, gainer.key, c);
  }

  lemma CoherentParses(s: State, k: PubKey, x: Sync)
    requires Coherent(s) && k in s.meta && x.priv == s.meta[k].priv && AllParse(x.pubs)
    ensures k.Key? && AllParse(s.meta[k].pubs) && AllParse([x.priv] + x.pubs)
  {
    assert PeerCoherent(s, k);
    PrefixesSplit(s.meta[k].priv, s.meta[k].pubs);
    AllParseCons(x.priv, s.meta[k].pubs, x.pubs);
  }

  lemma UnroutedIncoherent(s: State, k: PubKey, c: Prefix)
    requires Serves(s, k, c) && c !in s.routes
    ensures !Coherent(s)
  {
    assert Served(s, c);
  }

  /** Two active peers, the first with one public address. */
  function TwoPeers(): State {
    State(map[Key(0) := Meta("a", Bare(1), [Bare(100)], Active), Key(1) := Meta("b", Bare(2), [], Active)],
          map[Key(0) := {Prefix(1, 32), Prefix(100, 32)}, Key(1) := {Prefix(2, 32)}],
          {Prefix(100, 32)})
  }

  lemma BarePrefixes(a: Addr, b: Addr)
    ensures Prefixes([]) == {} && Prefixes([Bare(a)]) == {Prefix(a, 32)}
    ensures Allowed(Bare(a), []) == {Prefix(a, 32)} && Allowed(Bare(a), [Bare(b)]) == {Prefix(a, 32), Prefix(b, 32)}
    ensures AllParse([Bare(a)] + []) && AllParse([Bare(a)] + [Bare(b)]) && AllParse([Bare(b)]) && AllParse([])
  {
    assert Parse(Bare(a)) == Some(Prefix(a, 32)) && Parse(Bare(b)) == Some(Prefix(b, 32));
    assert Bare(a) in [Bare(a)] && Bare(a) in [Bare(a)] + [] && Bare(a) in [Bare(a)] + [Bare(b)] &&
        Bare(b) in [Bare(a)] + [Bare(b)];
  }

  lemma TwoPeersEach()
    ensures var s := TwoPeers();
            && s.meta.Keys == s.dev.Keys == {Key(0), Key(1)} && PeerCoherent(s, Key(0)) && PeerCoherent(s, Key(1))
            && AllowedOf(s.meta[Key(0)]) == {Prefix(1, 32), Prefix(100, 32)}
            && AllowedOf(s.meta[Key(1)]) == {Prefix(2, 32)}
  {
    BarePrefixes(1, 100);
    BarePrefixes(2, 100);
  }

  lemma TwoPeersDevice()
    ensures DeviceCoherent(TwoPeers())
  {
    TwoPeersEach();
  }

  lemma TwoPeersRoutes()
    ensures RoutesCoherent(TwoPeers())
  {
    var s := TwoPeers();
    BarePrefixes(100, 100);
    assert Serves(s, Key(0), Prefix(100, 32));
    forall k, p | Serves(s, k, p) ensures p == Prefix(100, 32) { }
  }

  lemma TwoPeersCoherent()
    ensures Coherent(TwoPeers())
  {
    TwoPeersDevice();
    TwoPeersRoutes();
  }

  /** A concrete move in the wrong order: the gainer records the address and nobody routes it. */
  lemma WrongOrderExample()
    ensures var c := Prefix(100, 32);
            var s := PushSyncs(TwoPeers(), [Sync(Key(1), Bare(2), [Bare(100)]), Sync(Key(0), Bare(1), [])],
                               [Delivered, Delivered]);
            Records(s, Key(1), c) && c !in s.routes
  {
    TwoPeersCoherent();
    BarePrefixes(100, 100);
    GainerFirstLosesRoute(TwoPeers(), Sync(Key(0), Bare(1), []), Sync(Key(1), Bare(2), [Bare(100)]), Prefix(100, 32));
  }
}

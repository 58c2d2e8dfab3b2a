/** The drift loop: make one gateway agree with the active WireGuard tunnels of the database
    (packages/provisioning/src/drift.ts). */
module Drift {
  import opened Common
  import opened Agent
  import opened Coherence

  /** One row of the desired-state query. */
  datatype Want = Want(id: string, key: PubKey, priv: Text, pubs: seq<Text>)

  /** Equal private address and, after sorting both lists, equal public lists. */
  predicate Matches(r: Report, t: Want) {
    r.priv == t.priv && multiset(r.pubs) == multiset(t.pubs)
  }

  predicate Stale(kernel: map<PubKey, Report>, t: Want) {
    t.key !in kernel || !Matches(kernel[t.key], t)
  }

  datatype Action = Pushed | AlreadyOk | Failed

  /** One iteration of the first loop; `kernel` is the peer list fetched before the loop. */
  function PushOne(s: State, kernel: map<PubKey, Report>, t: Want): (State, Action) {
    if t.key !in kernel then
      var (s', r) := Created(s, t.key, t.id, t.priv, t.pubs);
      (s', if r.Ok? then Pushed else Failed)
    else if Matches(kernel[t.key], t) then
      (s, AlreadyOk)
    else
      var (s', r) := Updated(s, t.key, t.priv, t.pubs);
      (s', if r.Ok? then Pushed else Failed)
  }

  function PushAll(s: State, kernel: map<PubKey, Report>, ts: seq<Want>): State
    decreases |ts|
  {
    if ts == [] then s else PushOne(PushAll(s, kernel, ts[..|ts| - 1]), kernel, ts[|ts| - 1]).0
  }

  function DeleteAll(s: State, ks: seq<PubKey>): State
    decreases |ks|
  {
    if ks == [] then s else Deleted(DeleteAll(s, ks[..|ks| - 1]), ks[|ks| - 1])
  }

  function KeysOf(ts: seq<Want>): set<PubKey> {
    set t | t in ts :: t.key
  }

  /** The second loop deletes these, in some order. */
  ghost predicate Orphans(s: State, ts: seq<Want>, ks: seq<PubKey>) {
    Distinct(ks) && forall k :: k in ks <==> k in s.dev && k !in KeysOf(ts)
  }

  function Pass(s: State, ts: seq<Want>, ks: seq<PubKey>): State {
    DeleteAll(PushAll(s, Reported(s), ts), ks)
  }

  function ActionAt(s: State, ts: seq<Want>, i: nat): Action
    requires i < |ts|
  {
    PushOne(PushAll(s, Reported(s), ts[..i]), Reported(s), ts[i]).1
  }

  /** The database side: keys are unique per gateway and all its addresses are well formed. */
  ghost predicate Desired(ts: seq<Want>) {
    && (forall i :: 0 <= i < |ts| ==> ts[i].key.Key? && AllParse([ts[i].priv] + ts[i].pubs))
    && (forall i, j :: 0 <= i < j < |ts| ==> ts[i].key != ts[j].key)
  }

  /** Metadata without a device peer and with another address: CreatePeer answers Conflict to it. */
  ghost predicate Ghost(s: State, t: Want) {
    t.key !in s.dev && t.key in s.meta && s.meta[t.key].priv != t.priv
  }

  lemma KeysSplit(ts: seq<Want>)
    requires |ts| > 0
    ensures KeysOf(ts) == KeysOf(ts[..|ts| - 1]) + {ts[|ts| - 1].key}
    ensures Desired(ts) ==> Desired(ts[..|ts| - 1]) && ts[|ts| - 1].key !in KeysOf(ts[..|ts| - 1])
  {
    var n := |ts| - 1;
    assert ts == ts[..n] + [ts[n]];
  }

  lemma FreshKey(ts: seq<Want>, i: nat)
    requires Desired(ts) && i < |ts|
    ensures ts[i].key !in KeysOf(ts[..i])
  {
  }

  /** Peers outside the list are not created, dropped or re-described by the first loop. */
  lemma {:induction false} PushFrame(s: State, kernel: map<PubKey, Report>, ts: seq<Want>, k: PubKey)
    requires StoredParse(s) && k !in KeysOf(ts)
    ensures var s' := PushAll(s, kernel, ts);
            (k in s'.dev <==> k in s.dev) && (k in s'.meta <==> k in s.meta) &&
            (k in s.meta ==> s'.meta[k] == s.meta[k])
    decreases |ts|
  {
    if ts != [] {
      KeysSplit(ts);
      PushFrame(s, kernel, ts[..|ts| - 1], k);
    }
  }

  lemma OneSucceeds(s: State, kernel: map<PubKey, Report>, t: Want)
    requires StoredParse(s) && t.key.Key? && AllParse([t.priv] + t.pubs)
    requires t.key !in kernel ==> !(t.key in s.meta && s.meta[t.key].priv != t.priv)
    requires t.key in kernel && Matches(kernel[t.key], t) ==>
               t.key in s.dev && t.key in s.meta && Matches(Report(s.meta[t.key].priv, s.meta[t.key].pubs), t)
    ensures var (s', act) := PushOne(s, kernel, t);
            act != Failed && StoredParse(s') && t.key in s'.dev && t.key in s'.meta &&
            Matches(Report(s'.meta[t.key].priv, s'.meta[t.key].pubs), t)
  {
    PrefixesSplit(t.priv, t.pubs);
    UpdateIs(s, t.key, t.priv, t.pubs);
  }

  lemma MatchNeedsMeta(s: State, t: Want)
    requires t.key in s.dev && Matches(Reported(s)[t.key], t) && AllParse([t.priv] + t.pubs)
    ensures t.key in s.meta && Matches(Report(s.meta[t.key].priv, s.meta[t.key].pubs), t)
  {
    assert t.priv in [t.priv] + t.pubs;
  }

  /** One processed tunnel: in the device, and described as the database wants it. */
  ghost predicate Settled(s: State, t: Want) {
    t.key in s.dev && t.key in s.meta && Matches(Report(s.meta[t.key].priv, s.meta[t.key].pubs), t)
  }

  /** A step for one tunnel does not unsettle another. */
  lemma OneKeepsSettled(s: State, kernel: map<PubKey, Report>, t: Want, u: Want)
    requires Settled(s, u) && u.key != t.key
    ensures Settled(PushOne(s, kernel, t).0, u)
  {
  }

  lemma {:induction false} PushStored(s: State, kernel: map<PubKey, Report>, ts: seq<Want>)
    requires StoredParse(s)
    ensures StoredParse(PushAll(s, kernel, ts))
    decreases |ts|
  {
    if ts != [] { PushStored(s, kernel, ts[..|ts| - 1]); }
  }

  lemma NextSucceeds(s: State, ts: seq<Want>, t: Want)
    requires StoredParse(s) && t.key !in KeysOf(ts)
    requires t.key.Key? && AllParse([t.priv] + t.pubs) && !Ghost(s, t)
    ensures var (s', act) := PushOne(PushAll(s, Reported(s), ts), Reported(s), t);
            act != Failed && Settled(s', t)
  {
    PushStored(s, Reported(s), ts);
    PushFrame(s, Reported(s), ts, t.key);
    if t.key in s.dev && Matches(Reported(s)[t.key], t) { MatchNeedsMeta(s, t); }
    OneSucceeds(PushAll(s, Reported(s), ts), Reported(s), t);
  }

  /** After the first n iterations the i-th tunnel is settled. */
  lemma {:induction false} PushSettles(s: State, ts: seq<Want>, n: nat, i: nat)
    requires StoredParse(s) && Desired(ts) && i < n <= |ts|
    requires forall j :: 0 <= j < |ts| ==> !Ghost(s, ts[j])
    ensures Settled(PushAll(s, Reported(s), ts[..n]), ts[i])
    decreases n
  {
    assert ts[..n][..n - 1] == ts[..n - 1];
    if i == n - 1 {
      FreshKey(ts, i);
      NextSucceeds(s, ts[..i], ts[i]);
    } else {
      PushSettles(s, ts, n - 1, i);
      OneKeepsSettled(PushAll(s, Reported(s), ts[..n - 1]), Reported(s), ts[n - 1], ts[i]);
    }
  }

  lemma NoneFails(s: State, ts: seq<Want>, i: nat)
    requires StoredParse(s) && Desired(ts) && i < |ts|
    requires forall j :: 0 <= j < |ts| ==> !Ghost(s, ts[j])
    ensures ActionAt(s, ts, i) != Failed
  {
    FreshKey(ts, i);
    NextSucceeds(s, ts[..i], ts[i]);
  }

  /** Every agent call of the first loop succeeds exactly when the agent holds no ghost metadata
      for a wanted key.  Such a ghost is left behind by an UpdatePeer for an unknown key whose
      addresses do not parse, and no later pass gets past it. */
  lemma PassSucceedsIff(s: State, ts: seq<Want>)
    requires StoredParse(s) && Desired(ts)
    ensures (forall i :: 0 <= i < |ts| ==> ActionAt(s, ts, i) != Failed) <==>
            (forall i :: 0 <= i < |ts| ==> !Ghost(s, ts[i]))
  {
    if forall i :: 0 <= i < |ts| ==> !Ghost(s, ts[i]) {
      forall i | 0 <= i < |ts| ensures ActionAt(s, ts, i) != Failed { NoneFails(s, ts, i); }
    } else {
      var i :| 0 <= i < |ts| && Ghost(s, ts[i]);
      FreshKey(ts, i);
      PushFrame(s, Reported(s), ts[..i], ts[i].key);
      assert ActionAt(s, ts, i) == Failed;
    }
  }

  lemma {:induction false} DeleteFrame(s: State, ks: seq<PubKey>, k: PubKey)
    requires k !in ks
    ensures var s' := DeleteAll(s, ks);
            (k in s'.dev <==> k in s.dev) && (k in s.dev ==> s'.dev[k] == s.dev[k]) &&
            (k in s'.meta <==> k in s.meta) && (k in s.meta ==> s'.meta[k] == s.meta[k])
    decreases |ks|
  {
    if ks != [] {
      assert ks == ks[..|ks| - 1] + [ks[|ks| - 1]];
      DeleteFrame(s, ks[..|ks| - 1], k);
    }
  }

  lemma {:induction false} DeleteRemoves(s: State, ks: seq<PubKey>, k: PubKey)
    requires k in ks && k.Key?
    ensures k !in DeleteAll(s, ks).dev
    decreases |ks|
  {
    var n := |ks| - 1;
    assert ks == ks[..n] + [ks[n]];
    if k != ks[n] { DeleteRemoves(s, ks[..n], k); }
  }

  /** How ghost metadata comes about: an UpdatePeer for a key the agent does not know, with addresses of
      which one does not parse. */
  lemma UpdateLeavesGhost(s: State, priv: Text, pubs: seq<Text>, t: Want)
    requires t.key.Key? && t.key !in s.meta && t.key !in s.dev && !AllParse([priv] + pubs)
    ensures Ghost(Updated(s, t.key, priv, pubs).0, t) <==> t.priv != UNSET
    ensures Updated(s, t.key, priv, pubs).1 == Invalid
  {
  }

  lemma GhostPushedOne(s: State, kernel: map<PubKey, Report>, u: Want, t: Want)
    requires Ghost(s, t) && t.key !in kernel && (u.key == t.key ==> u == t)
    ensures Ghost(PushOne(s, kernel, u).0, t)
  {
  }

  lemma {:induction false} GhostPushed(s: State, kernel: map<PubKey, Report>, ts: seq<Want>, t: Want)
    requires Ghost(s, t) && t.key !in kernel && forall u :: u in ts && u.key == t.key ==> u == t
    ensures Ghost(PushAll(s, kernel, ts), t)
    decreases |ts|
  {
    if ts != [] {
      var n := |ts| - 1;
      assert ts == ts[..n] + [ts[n]];
      GhostPushed(s, kernel, ts[..n], t);
      GhostPushedOne(PushAll(s, kernel, ts[..n]), kernel, ts[n], t);
    }
  }

  /** No later pass gets past it: the metadata stays, so the next pass fails on it again. */
  lemma GhostStays(s: State, ts: seq<Want>, ks: seq<PubKey>, i: nat)
    requires Desired(ts) && Orphans(s, ts, ks) && i < |ts| && Ghost(s, ts[i])
    ensures Ghost(Pass(s, ts, ks), ts[i])
  {
    forall u | u in ts && u.key == ts[i].key ensures u == ts[i] {
      var j :| 0 <= j < |ts| && ts[j] == u;
    }
    GhostPushed(s, Reported(s), ts, ts[i]);
    assert ts[i] in ts && ts[i].key in KeysOf(ts);
    DeleteFrame(PushAll(s, Reported(s), ts), ks, ts[i].key);
  }

  /** Drift convergence: from any agent state, in any tunnel order and any deletion order, a pass
      without failing calls leaves a peer list that is exactly the desired one. */
  lemma PassConverges(s: State, ts: seq<Want>, ks: seq<PubKey>)
    requires StoredParse(s) && RealKeys(s) && Desired(ts) && Orphans(s, ts, ks)
    requires forall i :: 0 <= i < |ts| ==> !Ghost(s, ts[i])
    ensures var r := Reported(Pass(s, ts, ks));
            r.Keys == KeysOf(ts) && forall i :: 0 <= i < |ts| ==> ts[i].key in r && Matches(r[ts[i].key], ts[i])
    ensures forall i :: 0 <= i < |ts| ==> Settled(Pass(s, ts, ks), ts[i])
  {
    var mid, end := PushAll(s, Reported(s), ts), Pass(s, ts, ks);
    assert ts[..|ts|] == ts;
    forall i | 0 <= i < |ts|
      ensures Settled(end, ts[i]) && ts[i].key in Reported(end) && Matches(Reported(end)[ts[i].key], ts[i])
    {
      PushSettles(s, ts, |ts|, i);
      assert ts[i] in ts;
      DeleteFrame(mid, ks, ts[i].key);
    }
    forall k ensures k in end.dev <==> k in KeysOf(ts) {
      if k in KeysOf(ts) {
      } else {
        PushFrame(s, Reported(s), ts, k);
        if k in ks { DeleteRemoves(mid, ks, k); } else { DeleteFrame(mid, ks, k); }
      }
    }
    assert end.dev.Keys == KeysOf(ts);
  }

  lemma {:induction false} NothingStale(s: State, kernel: map<PubKey, Report>, ts: seq<Want>)
    requires forall i :: 0 <= i < |ts| ==> !Stale(kernel, ts[i])
    ensures PushAll(s, kernel, ts) == s
    decreases |ts|
  {
    if ts != [] { NothingStale(s, kernel, ts[..|ts| - 1]); }
  }

  lemma IdleWhenSettled(s: State, ts: seq<Want>, ks: seq<PubKey>)
    requires forall i :: 0 <= i < |ts| ==> !Stale(Reported(s), ts[i])
    requires s.dev.Keys <= KeysOf(ts) && Orphans(s, ts, ks)
    ensures ks == [] && Pass(s, ts, ks) == s
    ensures forall i :: 0 <= i < |ts| ==> ActionAt(s, ts, i) == AlreadyOk
  {
    HeadIsIn(ks);
    NothingStale(s, Reported(s), ts);
    forall i | 0 <= i < |ts| ensures ActionAt(s, ts, i) == AlreadyOk {
      NothingStale(s, Reported(s), ts[..i]);
    }
  }

  /** An immediate second pass, in whatever order, pushes nothing and deletes nothing. */
  lemma SecondPassIdle(s: State, ts: seq<Want>, ks: seq<PubKey>, ts2: seq<Want>, ks2: seq<PubKey>)
    requires StoredParse(s) && RealKeys(s) && Desired(ts) && Orphans(s, ts, ks)
    requires forall i :: 0 <= i < |ts| ==> !Ghost(s, ts[i])
    requires multiset(ts2) == multiset(ts)
    requires Orphans(Pass(s, ts, ks), ts2, ks2)
    ensures ks2 == [] && Pass(Pass(s, ts, ks), ts2, ks2) == Pass(s, ts, ks)
    ensures forall i :: 0 <= i < |ts2| ==> ActionAt(Pass(s, ts, ks), ts2, i) == AlreadyOk
  {
    PassConverges(s, ts, ks);
    var end := Pass(s, ts, ks);
    SameWants(ts, ts2);
    forall i | 0 <= i < |ts2| ensures !Stale(Reported(end), ts2[i]) {
      assert ts2[i] in ts;
    }
    IdleWhenSettled(end, ts2, ks2);
  }

  lemma SameWants(ts: seq<Want>, ts2: seq<Want>)
    requires multiset(ts2) == multiset(ts)
    ensures KeysOf(ts2) == KeysOf(ts) && forall t :: t in ts2 <==> t in ts
  {
    assert forall t :: t in ts2 <==> t in multiset(ts2);
    assert forall t :: t in ts <==> t in multiset(ts);
  }

  // ----- the data plane -----

  function PushedIPs(kernel: map<PubKey, Report>, ts: seq<Want>): set<Prefix>
    decreases |ts|
  {
    if ts == [] then {} else
    var t := ts[|ts| - 1];
    PushedIPs(kernel, ts[..|ts| - 1]) + (if Stale(kernel, t) then Allowed(t.priv, t.pubs) else {})
  }

  /** No prefix is wanted by two tunnels. */
  ghost predicate Apart(ts: seq<Want>) {
    forall i, j :: 0 <= i < |ts| && 0 <= j < |ts| && i != j ==>
      Allowed(ts[i].priv, ts[i].pubs) !! Allowed(ts[j].priv, ts[j].pubs)
  }

  lemma OneDevice(s: State, kernel: map<PubKey, Report>, t: Want)
    requires StoredParse(s) && t.key.Key? && AllParse([t.priv] + t.pubs)
    requires t.key !in kernel ==> !(t.key in s.meta && s.meta[t.key].priv != t.priv)
    ensures PushOne(s, kernel, t).0.dev ==
            if Stale(kernel, t) then Configure(s.dev, t.key, Allowed(t.priv, t.pubs)) else s.dev
  {
    PrefixesSplit(t.priv, t.pubs);
    UpdateIs(s, t.key, t.priv, t.pubs);
  }

  /** What the n-th iteration does to the device. */
  lemma DeviceStep(s: State, ts: seq<Want>, n: nat)
    requires StoredParse(s) && Desired(ts) && n < |ts| && !Ghost(s, ts[n])
    ensures var kernel, t := Reported(s), ts[n];
            PushAll(s, kernel, ts[..n + 1]).dev ==
            (if Stale(kernel, t) then Configure(PushAll(s, kernel, ts[..n]).dev, t.key, Allowed(t.priv, t.pubs))
             else PushAll(s, kernel, ts[..n]).dev)
    ensures PushedIPs(Reported(s), ts[..n + 1]) ==
            PushedIPs(Reported(s), ts[..n]) + if Stale(Reported(s), ts[n]) then Allowed(ts[n].priv, ts[n].pubs) else {}
  {
    assert ts[..n + 1][..n] == ts[..n];
    FreshKey(ts, n);
    PushFrame(s, Reported(s), ts[..n], ts[n].key);
    PushStored(s, Reported(s), ts[..n]);
    OneDevice(PushAll(s, Reported(s), ts[..n]), Reported(s), ts[n]);
  }

  /** A tunnel that was pushed has exactly the AllowedIPs it wants. */
  lemma {:induction false} PushedHas(s: State, ts: seq<Want>, n: nat, i: nat)
    requires StoredParse(s) && Desired(ts) && Apart(ts) && i < n <= |ts| && Stale(Reported(s), ts[i])
    requires forall j :: 0 <= j < |ts| ==> !Ghost(s, ts[j])
    ensures var s' := PushAll(s, Reported(s), ts[..n]);
            ts[i].key in s'.dev && s'.dev[ts[i].key] == Allowed(ts[i].priv, ts[i].pubs)
    decreases n
  {
    DeviceStep(s, ts, n - 1);
    if i < n - 1 {
      PushedHas(s, ts, n - 1, i);
      ConfigureOther(PushAll(s, Reported(s), ts[..n - 1]).dev, ts[n - 1].key,
                     Allowed(ts[n - 1].priv, ts[n - 1].pubs), ts[i].key, Allowed(ts[i].priv, ts[i].pubs));
    }
  }

  /** Configuring one peer leaves another one's addresses alone when they are disjoint. */
  lemma ConfigureOther(dev: map<PubKey, set<Prefix>>, k: PubKey, ips: set<Prefix>, l: PubKey, has: set<Prefix>)
    requires l in dev && dev[l] == has && k != l && has !! ips
    ensures l in Configure(dev, k, ips) && Configure(dev, k, ips)[l] == has
  {
    assert has - ips == has;
  }

  /** Any other peer has what it had, minus what the pushed tunnels took. */
  lemma {:induction false} OthersKeep(s: State, ts: seq<Want>, n: nat, k: PubKey)
    requires StoredParse(s) && Desired(ts) && n <= |ts| && k in s.dev
    requires forall j :: 0 <= j < |ts| ==> !Ghost(s, ts[j])
    requires forall i :: 0 <= i < n && Stale(Reported(s), ts[i]) ==> ts[i].key != k
    ensures var s' := PushAll(s, Reported(s), ts[..n]);
            k in s'.dev && s'.dev[k] == s.dev[k] - PushedIPs(Reported(s), ts[..n])
    decreases n
  {
    if n > 0 {
      DeviceStep(s, ts, n - 1);
      OthersKeep(s, ts, n - 1, k);
    }
  }

  /** Exactly what a pass makes of the data plane: the AllowedIPs of each wanted tunnel, for every
      starting state and every order. */
  lemma DataPlaneExact(s: State, ts: seq<Want>, ks: seq<PubKey>, i: nat)
    requires StoredParse(s) && Desired(ts) && Apart(ts) && Orphans(s, ts, ks) && i < |ts|
    requires forall j :: 0 <= j < |ts| ==> !Ghost(s, ts[j])
    ensures var t := ts[i]; var end := Pass(s, ts, ks);
            t.key in end.dev &&
            end.dev[t.key] == if Stale(Reported(s), t) then Allowed(t.priv, t.pubs)
                              else s.dev[t.key] - PushedIPs(Reported(s), ts)
  {
    assert ts[..|ts|] == ts;
    if Stale(Reported(s), ts[i]) { PushedHas(s, ts, |ts|, i); } else { OthersKeep(s, ts, |ts|, ts[i].key); }
    assert ts[i] in ts;
    DeleteFrame(PushAll(s, Reported(s), ts), ks, ts[i].key);
  }

  lemma {:induction false} PushedAvoid(kernel: map<PubKey, Report>, ts: seq<Want>, n: nat, i: nat)
    requires n <= |ts| && i < |ts| && Apart(ts) && !Stale(kernel, ts[i])
    ensures Allowed(ts[i].priv, ts[i].pubs) !! PushedIPs(kernel, ts[..n])
    decreases n
  {
    if n > 0 {
      assert ts[..n][..n - 1] == ts[..n - 1];
      PushedAvoid(kernel, ts, n - 1, i);
    }
  }

  /** The peers the pass leaves alone are already configured as their metadata says: true when the
      agent is coherent without suspended peers, and true after a restart, which leaves no peer alone. */
  ghost predicate SkippedAreServed(s: State, ts: seq<Want>) {
    forall i :: 0 <= i < |ts| && !Stale(Reported(s), ts[i]) ==>
      s.dev[ts[i].key] == Allowed(ts[i].priv, ts[i].pubs)
  }

  lemma DataPlaneConverges(s: State, ts: seq<Want>, ks: seq<PubKey>)
    requires StoredParse(s) && Desired(ts) && Apart(ts) && Orphans(s, ts, ks)
    requires forall j :: 0 <= j < |ts| ==> !Ghost(s, ts[j])
    requires SkippedAreServed(s, ts)
    ensures forall i :: 0 <= i < |ts| ==>
              ts[i].key in Pass(s, ts, ks).dev && Pass(s, ts, ks).dev[ts[i].key] == Allowed(ts[i].priv, ts[i].pubs)
  {
    forall i | 0 <= i < |ts|
      ensures ts[i].key in Pass(s, ts, ks).dev && Pass(s, ts, ks).dev[ts[i].key] == Allowed(ts[i].priv, ts[i].pubs)
    {
      DataPlaneExact(s, ts, ks, i);
      if !Stale(Reported(s), ts[i]) {
        assert ts[..|ts|] == ts;
        PushedAvoid(Reported(s), ts, |ts|, i);
      }
    }
  }

  lemma SameTexts(a: seq<Text>, b: seq<Text>)
    requires multiset(a) == multiset(b)
    ensures forall t :: t in a <==> t in b
    ensures Prefixes(a) == Prefixes(b)
  {
    assert forall t :: t in a <==> t in multiset(a);
    assert forall t :: t in b <==> t in multiset(b);
  }

  /** Starting coherent with no suspended peer, or freshly restarted, is enough. */
  lemma GoodStarts(s: State, ts: seq<Want>)
    requires Desired(ts)
    requires s.meta == map[] || (Coherent(s) && forall k :: k in s.meta ==> s.meta[k].status == Active)
    ensures StoredParse(s) && SkippedAreServed(s, ts)
    ensures forall i :: 0 <= i < |ts| ==> !Ghost(s, ts[i])
  {
    forall k | k in s.meta ensures AllParse(s.meta[k].pubs) {
      assert PeerCoherent(s, k);
      PrefixesSplit(s.meta[k].priv, s.meta[k].pubs);
    }
    forall i | 0 <= i < |ts| && !Stale(Reported(s), ts[i])
      ensures s.dev[ts[i].key] == Allowed(ts[i].priv, ts[i].pubs)
    {
      var t := ts[i];
      MatchNeedsMeta(s, t);
      assert PeerCoherent(s, t.key);
      var m := s.meta[t.key];
      PrefixesSplit(t.priv, t.pubs);
      PrefixesSplit(m.priv, m.pubs);
      SameTexts(m.pubs, t.pubs);
    }
  }

  lemma CoherentStart(s: State, ts: seq<Want>)
    requires Coherent(s)
    ensures StoredParse(s) && forall i :: 0 <= i < |ts| ==> !Ghost(s, ts[i])
  {
    forall k | k in s.meta ensures AllParse(s.meta[k].pubs) {
      assert PeerCoherent(s, k);
      PrefixesSplit(s.meta[k].priv, s.meta[k].pubs);
    }
  }

  /** What a coherent device holds for a peer that the pass skips. */
  lemma SkippedDevice(s: State, t: Want)
    requires Coherent(s) && AllParse([t.priv] + t.pubs) && !Stale(Reported(s), t)
    ensures t.key in s.meta && t.key in s.dev && Allowed(t.priv, t.pubs) != {}
    ensures s.dev[t.key] == if s.meta[t.key].status == Active then Allowed(t.priv, t.pubs) else {}
  {
    MatchNeedsMeta(s, t);
    assert PeerCoherent(s, t.key);
    var m := s.meta[t.key];
    PrefixesSplit(t.priv, t.pubs);
    PrefixesSplit(m.priv, m.pubs);
    SameTexts(m.pubs, t.pubs);
  }

  /** From any coherent agent: a tunnel ends with exactly the AllowedIPs it wants if and only if the pass
      pushes it or its peer is not suspended. */
  lemma DataPlaneIff(s: State, ts: seq<Want>, ks: seq<PubKey>, i: nat)
    requires Coherent(s) && Desired(ts) && Apart(ts) && Orphans(s, ts, ks) && i < |ts|
    ensures var t, end := ts[i], Pass(s, ts, ks);
            (t.key in end.dev && end.dev[t.key] == Allowed(t.priv, t.pubs)) <==>
            (Stale(Reported(s), t) || (t.key in s.meta && s.meta[t.key].status == Active))
  {
    CoherentStart(s, ts);
    DataPlaneExact(s, ts, ks, i);
    if !Stale(Reported(s), ts[i]) {
      assert ts[..|ts|] == ts;
      SkippedDevice(s, ts[i]);
      PushedAvoid(Reported(s), ts, |ts|, i);
    }
  }

  /** Suspended peers are why the condition is needed: metadata that already matches hides a peer
      whose AllowedIPs are empty, and the pass leaves it cut off. */
  lemma SuspendedStaysBlocked(t: Want, routes: set<Prefix>)
    requires t.key.Key? && AllParse([t.priv] + t.pubs)
    ensures var s := State(map[t.key := Meta(t.id, t.priv, t.pubs, PeerStatus.Suspended)], map[t.key := {}], routes);
            Orphans(s, [t], []) && Pass(s, [t], []) == s && s.dev[t.key] != Allowed(t.priv, t.pubs)
  {
    var s := State(map[t.key := Meta(t.id, t.priv, t.pubs, PeerStatus.Suspended)], map[t.key := {}], routes);
    PrefixesSplit(t.priv, t.pubs);
    assert t in [t] && t.key in KeysOf([t]);
    NothingStale(s, Reported(s), [t]);
  }

  // ----- the route table -----

  /** The push for t withdraws the route for p. */
  ghost predicate Drops(s: State, t: Want, p: Prefix) {
    t.key in s.dev && Records(s, t.key, p) && p !in Prefixes(t.pubs)
  }

  ghost predicate NoDrops(s: State, ts: seq<Want>, from: nat, to: nat, p: Prefix)
    requires to <= |ts|
  {
    forall i :: from <= i < to ==> !Drops(s, ts[i], p)
  }

  ghost predicate AddedLast(s: State, ts: seq<Want>, b: nat, n: nat, p: Prefix)
    requires b < n <= |ts|
  {
    Stale(Reported(s), ts[b]) && p in Prefixes(ts[b].pubs) && NoDrops(s, ts, b + 1, n, p)
  }

  /** After n iterations p is routed: some push added it and no later one withdrew it, or it was
      there from the start and none did. */
  ghost predicate RoutedAfter(s: State, ts: seq<Want>, n: nat, p: Prefix)
    requires n <= |ts|
  {
    (exists b :: 0 <= b < n && AddedLast(s, ts, b, n, p)) || (p in s.routes && NoDrops(s, ts, 0, n, p))
  }

  lemma OneRoute(s: State, mid: State, t: Want, p: Prefix)
    requires StoredParse(mid) && t.key.Key? && AllParse([t.priv] + t.pubs) && !Ghost(s, t)
    requires (t.key in mid.meta <==> t.key in s.meta) && (t.key in s.meta ==> mid.meta[t.key] == s.meta[t.key])
    ensures p in PushOne(mid, Reported(s), t).0.routes <==>
            (Stale(Reported(s), t) && p in Prefixes(t.pubs)) || (p in mid.routes && !Drops(s, t, p))
  {
    PrefixesSplit(t.priv, t.pubs);
    UpdateIs(mid, t.key, t.priv, t.pubs);
    RemovedPrefixes(MetaOrNew(mid, t.key).pubs, t.pubs, p);
    if t.key in s.dev && Matches(Reported(s)[t.key], t) {
      MatchNeedsMeta(s, t);
      SameTexts(s.meta[t.key].pubs, t.pubs);
    }
  }

  lemma NoDropsStep(s: State, ts: seq<Want>, from: nat, n: nat, p: Prefix)
    requires from <= n < |ts|
    ensures NoDrops(s, ts, from, n + 1, p) <==> NoDrops(s, ts, from, n, p) && !Drops(s, ts[n], p)
  {
  }

  lemma RoutedStep(s: State, ts: seq<Want>, n: nat, p: Prefix)
    requires n < |ts|
    ensures RoutedAfter(s, ts, n + 1, p) <==>
            (Stale(Reported(s), ts[n]) && p in Prefixes(ts[n].pubs)) ||
            (RoutedAfter(s, ts, n, p) && !Drops(s, ts[n], p))
  {
    var m := n + 1;
    NoDropsStep(s, ts, 0, n, p);
    forall b | 0 <= b < n
      ensures AddedLast(s, ts, b, m, p) <==> AddedLast(s, ts, b, n, p) && !Drops(s, ts[n], p)
    {
      NoDropsStep(s, ts, b + 1, n, p);
    }
    assert AddedLast(s, ts, n, m, p) <==> Stale(Reported(s), ts[n]) && p in Prefixes(ts[n].pubs);
    assert (exists b :: 0 <= b < m && AddedLast(s, ts, b, m, p)) <==>
           AddedLast(s, ts, n, m, p) || exists b :: 0 <= b < n && AddedLast(s, ts, b, m, p);
  }

  lemma {:induction false} PushRoutes(s: State, ts: seq<Want>, n: nat, p: Prefix)
    requires StoredParse(s) && Desired(ts) && n <= |ts|
    requires forall j :: 0 <= j < |ts| ==> !Ghost(s, ts[j])
    ensures p in PushAll(s, Reported(s), ts[..n]).routes <==> RoutedAfter(s, ts, n, p)
    decreases n
  {
    if n > 0 {
      PushRoutes(s, ts, n - 1, p);
      RoutedStep(s, ts, n - 1, p);
      assert ts[..n][..n - 1] == ts[..n - 1];
      FreshKey(ts, n - 1);
      PushFrame(s, Reported(s), ts[..n - 1], ts[n - 1].key);
      PushStored(s, Reported(s), ts[..n - 1]);
      OneRoute(s, PushAll(s, Reported(s), ts[..n - 1]), ts[n - 1], p);
    }
  }

  lemma {:induction false} DeleteRoutes(s: State, ks: seq<PubKey>, p: Prefix)
    requires StoredParse(s) && Distinct(ks) && forall k :: k in ks ==> k.Key?
    ensures p in DeleteAll(s, ks).routes <==> p in s.routes && forall k :: k in ks ==> !Records(s, k, p)
    decreases |ks|
  {
    if ks != [] {
      var n := |ks| - 1;
      assert ks == ks[..n] + [ks[n]];
      assert ks[n] !in ks[..n];
      DeleteRoutes(s, ks[..n], p);
      DeleteFrame(s, ks[..n], ks[n]);
      if ks[n] in s.meta { ReadableAll(s.meta[ks[n]].pubs); }
      assert (forall k :: k in ks ==> !Records(s, k, p)) <==>
             (forall k :: k in ks[..n] ==> !Records(s, k, p)) && !Records(s, ks[n], p);
    }
  }

  /** Exactly which routes a pass leaves, for every starting state and every order. */
  lemma RoutesExact(s: State, ts: seq<Want>, ks: seq<PubKey>, p: Prefix)
    requires StoredParse(s) && RealKeys(s) && Desired(ts) && Orphans(s, ts, ks)
    requires forall j :: 0 <= j < |ts| ==> !Ghost(s, ts[j])
    ensures p in Pass(s, ts, ks).routes <==>
            RoutedAfter(s, ts, |ts|, p) && forall k :: k in ks ==> !Records(s, k, p)
  {
    assert ts[..|ts|] == ts;
    PushRoutes(s, ts, |ts|, p);
    var mid := PushAll(s, Reported(s), ts);
    PushStored(s, Reported(s), ts);
    forall k | k in ks ensures Records(mid, k, p) <==> Records(s, k, p) {
      PushFrame(s, Reported(s), ts, k);
    }
    DeleteRoutes(mid, ks, p);
  }

  ghost predicate Wanted(ts: seq<Want>, p: Prefix) {
    exists b :: 0 <= b < |ts| && p in Prefixes(ts[b].pubs)
  }

  /** p is wanted by the b-th tunnel while a tunnel processed later, or an orphan, still records it. */
  ghost predicate LateHandover(s: State, ts: seq<Want>, b: nat, p: Prefix)
    requires b < |ts|
  {
    && p in Prefixes(ts[b].pubs)
    && ((exists i :: b < i < |ts| && Records(s, ts[i].key, p)) ||
        (exists k :: k in s.dev && k !in KeysOf(ts) && Records(s, k, p)))
  }

  lemma OneWanter(ts: seq<Want>, b: nat, i: nat, p: Prefix)
    requires Apart(ts) && b < |ts| && i < |ts|
    requires p in Prefixes(ts[b].pubs) && p in Prefixes(ts[i].pubs)
    ensures b == i
  {
    PrefixesSplit(ts[b].priv, ts[b].pubs);
    PrefixesSplit(ts[i].priv, ts[i].pubs);
  }

  /** A drop after the only push that adds p settles the matter. */
  lemma DroppedAfter(s: State, ts: seq<Want>, b: nat, i: nat, p: Prefix)
    requires Apart(ts) && b < i < |ts| && p in Prefixes(ts[b].pubs) && Drops(s, ts[i], p)
    ensures !RoutedAfter(s, ts, |ts|, p)
  {
    forall a | 0 <= a < |ts| ensures !AddedLast(s, ts, a, |ts|, p) {
      if p in Prefixes(ts[a].pubs) {
        OneWanter(ts, b, a, p);
      }
    }
  }

  lemma LateLoses(s: State, ts: seq<Want>, ks: seq<PubKey>, b: nat, p: Prefix)
    requires Coherent(s) && StoredParse(s) && RealKeys(s) && Desired(ts) && Apart(ts) && Orphans(s, ts, ks)
    requires forall j :: 0 <= j < |ts| ==> !Ghost(s, ts[j])
    requires b < |ts| && LateHandover(s, ts, b, p)
    ensures p !in Pass(s, ts, ks).routes
  {
    RoutesExact(s, ts, ks, p);
    if i :| b < i < |ts| && Records(s, ts[i].key, p) {
      assert p !in Prefixes(ts[i].pubs) by { if p in Prefixes(ts[i].pubs) { OneWanter(ts, b, i, p); } }
      DroppedAfter(s, ts, b, i, p);
    }
  }

  lemma TimelyStays(s: State, ts: seq<Want>, ks: seq<PubKey>, b: nat, p: Prefix)
    requires Coherent(s) && StoredParse(s) && RealKeys(s) && Desired(ts) && Apart(ts) && Orphans(s, ts, ks)
    requires forall k :: k in s.meta ==> s.meta[k].status == Active
    requires forall j :: 0 <= j < |ts| ==> !Ghost(s, ts[j])
    requires b < |ts| && p in Prefixes(ts[b].pubs) && !LateHandover(s, ts, b, p)
    ensures p in Pass(s, ts, ks).routes
  {
    RoutesExact(s, ts, ks, p);
    if Stale(Reported(s), ts[b]) {
      assert AddedLast(s, ts, b, |ts|, p);
    } else {
      MatchNeedsMeta(s, ts[b]);
      SameTexts(s.meta[ts[b].key].pubs, ts[b].pubs);
      assert Serves(s, ts[b].key, p);
      assert Served(s, p);
      forall i | 0 <= i < |ts| ensures !Drops(s, ts[i], p) {
        if Drops(s, ts[i], p) { ServesUnique(s, ts[b].key, ts[i].key, p); }
      }
    }
  }

  lemma UnwantedGoes(s: State, ts: seq<Want>, ks: seq<PubKey>, p: Prefix)
    requires Coherent(s) && StoredParse(s) && RealKeys(s) && Desired(ts) && Orphans(s, ts, ks)
    requires forall j :: 0 <= j < |ts| ==> !Ghost(s, ts[j])
    requires !Wanted(ts, p)
    ensures p !in Pass(s, ts, ks).routes
  {
    RoutesExact(s, ts, ks, p);
    if p in s.routes {
      assert Served(s, p);
      var k :| Serves(s, k, p);
      if k in KeysOf(ts) {
        var t :| t in ts && t.key == k;
        var i :| 0 <= i < |ts| && ts[i] == t;
        assert Drops(s, ts[i], p);
      } else {
        assert k in ks;
      }
    }
  }

  /** The claim "after a pass the routes are the wanted prefixes" is false in general; from a
      coherent agent without suspended peers it holds exactly when no prefix is handed over from a
      tunnel later in the query's order, or from an orphan, to an earlier one. */
  lemma RoutesRightIff(s: State, ts: seq<Want>, ks: seq<PubKey>)
    requires Coherent(s) && RealKeys(s) && Desired(ts) && Apart(ts) && Orphans(s, ts, ks)
    requires forall k :: k in s.meta ==> s.meta[k].status == Active
    ensures (forall p :: p in Pass(s, ts, ks).routes <==> Wanted(ts, p)) <==>
            (forall b, p :: 0 <= b < |ts| ==> !LateHandover(s, ts, b, p))
  {
    GoodStarts(s, ts);
    if forall b, p :: 0 <= b < |ts| ==> !LateHandover(s, ts, b, p) {
      forall p ensures p in Pass(s, ts, ks).routes <==> Wanted(ts, p) {
        if Wanted(ts, p) {
          var b :| 0 <= b < |ts| && p in Prefixes(ts[b].pubs);
          TimelyStays(s, ts, ks, b, p);
        } else {
          UnwantedGoes(s, ts, ks, p);
        }
      }
    } else {
      var b, p :| 0 <= b < |ts| && LateHandover(s, ts, b, p);
      LateLoses(s, ts, ks, b, p);
      assert Wanted(ts, p);
    }
  }

  /** A route lost to a late handover stays lost: drift compares metadata only, so every later pass
      finds nothing to do. */
  lemma LostRouteStaysLost(s: State, ts: seq<Want>, ks: seq<PubKey>, ts2: seq<Want>, ks2: seq<PubKey>, b: nat,
                           p: Prefix)
    requires Coherent(s) && RealKeys(s) && Desired(ts) && Apart(ts) && Orphans(s, ts, ks)
    requires forall k :: k in s.meta ==> s.meta[k].status == Active
    requires b < |ts| && LateHandover(s, ts, b, p)
    requires multiset(ts2) == multiset(ts) && Orphans(Pass(s, ts, ks), ts2, ks2)
    ensures Wanted(ts2, p) && p !in Pass(Pass(s, ts, ks), ts2, ks2).routes
  {
    GoodStarts(s, ts);
    LateLoses(s, ts, ks, b, p);
    SecondPassIdle(s, ts, ks, ts2, ks2);
    SameWants(ts, ts2);
    assert ts[b] in ts2;
  }

  // ----- the loop itself -----

  datatype Tally = Tally(pushed: seq<string>, deletedOrphans: seq<PubKey>, alreadyOk: nat, errors: seq<string>)

  function IdsOf(s: State, ts: seq<Want>, n: nat, act: Action): seq<string>
    requires n <= |ts|
  {
    if n == 0 then [] else
    IdsOf(s, ts, n - 1, act) + if ActionAt(s, ts, n - 1) == act then [ts[n - 1].id] else []
  }

  /** The address of the first of the two peers, now wanted by the second, which comes first. */
  function TwoWants(): seq<Want> {
    [Want("b", Key(1), Bare(2), [Bare(100)]), Want("a", Key(0), Bare(1), [])]
  }

  lemma TwoWantsDesired()
    ensures Desired(TwoWants()) && Apart(TwoWants()) && KeysOf(TwoWants()) == {Key(0), Key(1)}
  {
    var ts := TwoWants();
    BarePrefixes(1, 100);
    BarePrefixes(2, 100);
    assert ts[0].key in KeysOf(ts) && ts[1].key in KeysOf(ts);
    assert Allowed(ts[0].priv, ts[0].pubs) !! Allowed(ts[1].priv, ts[1].pubs);
  }

  lemma TwoWantsLate()
    ensures LateHandover(TwoPeers(), TwoWants(), 0, Prefix(100, 32))
  {
    BarePrefixes(100, 100);
    assert Records(TwoPeers(), TwoWants()[1].key, Prefix(100, 32));
  }

  lemma TwoWantsOrphans()
    ensures Orphans(TwoPeers(), TwoWants(), []) && RealKeys(TwoPeers())
    ensures forall k :: k in TwoPeers().meta ==> TwoPeers().meta[k].status == Active
  {
    TwoWantsDesired();
  }

  lemma LateUnrouted(s: State, ts: seq<Want>, ks: seq<PubKey>, b: nat, p: Prefix)
    requires Coherent(s) && RealKeys(s) && Desired(ts) && Apart(ts) && Orphans(s, ts, ks)
    requires forall k :: k in s.meta ==> s.meta[k].status == Active
    requires b < |ts| && LateHandover(s, ts, b, p)
    ensures Wanted(ts, p) && p !in Pass(s, ts, ks).routes
  {
    GoodStarts(s, ts);
    LateLoses(s, ts, ks, b, p);
  }

  /** A concrete pass that loses a route: the new holder comes first in the query's order. */
  lemma LateHandoverExample()
    ensures Wanted(TwoWants(), Prefix(100, 32)) && Prefix(100, 32) !in Pass(TwoPeers(), TwoWants(), []).routes
  {
    TwoPeersCoherent();
    TwoWantsDesired();
    TwoWantsOrphans();
    TwoWantsLate();
    LateUnrouted(TwoPeers(), TwoWants(), [], 0, Prefix(100, 32));
  }

  /** reconcileGateway: two loops over the tunnels and over the peers fetched at the start. */
  method ReconcileGateway(m: KernelManager, ts: seq<Want>) returns (report: Tally)
    modifies m
    ensures m.View() == Pass(old(m.View()), ts, report.deletedOrphans)
    ensures Orphans(old(m.View()), ts, report.deletedOrphans)
    ensures report.pushed == IdsOf(old(m.View()), ts, |ts|, Pushed)
    ensures report.errors == IdsOf(old(m.View()), ts, |ts|, Failed)
    ensures report.alreadyOk + |report.pushed| + |report.errors| == |ts|
  {
    var kernel := m.ListPeers();
    ghost var s := m.View();
    var pushed, failed, alreadyOk := [], [], 0;
    for i := 0 to |ts|
      invariant m.View() == PushAll(s, kernel, ts[..i])
      invariant pushed == IdsOf(s, ts, i, Pushed) && failed == IdsOf(s, ts, i, Failed)
      invariant alreadyOk + |pushed| + |failed| == i
    {
      var t := ts[i];
      assert ts[..i + 1][..i] == ts[..i];
      if t.key in kernel && Matches(kernel[t.key], t) {
        alreadyOk := alreadyOk + 1;
      } else {
        var reply;
        if t.key !in kernel {
          reply := m.CreatePeer(t.key, t.id, t.priv, t.pubs);
        } else {
          reply := m.UpdatePeer(t.key, t.priv, t.pubs);
        }
        if reply.Ok? { pushed := pushed + [t.id]; } else { failed := failed + [t.id]; }
      }
    }
    assert ts[..|ts|] == ts;
    ghost var mid := m.View();
    var inDb := set t | t in ts :: t.key;
    var orphans := Enumerate(kernel.Keys - inDb);
    for i := 0 to |orphans|
      invariant m.View() == DeleteAll(mid, orphans[..i])
    {
      assert orphans[..i + 1][..i] == orphans[..i];
      m.DeletePeer(orphans[i]);
    }
    assert orphans[..|orphans|] == orphans;
    report := Tally(pushed, orphans, alreadyOk, failed);
  }
}

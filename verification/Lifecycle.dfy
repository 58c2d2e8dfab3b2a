/** What each peer operation of the WireGuard agent does to its metadata, to the AllowedIPs of every peer and
    to the routes (gateway-agent/internal/wg/kernel.go), told in terms of the addresses named by the request. */
module Lifecycle {
  import opened Common
  import opened Arith
  import opened Agent
  import opened Coherence

  lemma AlignedOnce(a: int, b: int, x: int, size: int)
    requires size > 0 && a % size == 0 && b % size == 0 && a <= x < a + size && b <= x < b + size
    ensures a == b
  {
    ModUnique(x, size, a / size, x - a) by { assert a == (a / size) * size; }
    ModUnique(x, size, b / size, x - b) by { assert b == (b / size) * size; }
  }

  /** What an address text stands for: a bare address for itself, a slash text for the aligned prefix of that
      length around it, and any other text for nothing. */
  lemma ParseMeans(t: Text, p: Prefix)
    ensures Parse(t) == Some(p) <==>
              match t
              case Bare(a) => p.net == a && p.len == 32
              case Slash(a, len) =>
                p.len == len <= 32 && p.net % Pow2(32 - len) == 0 && p.net <= a < p.net + Pow2(32 - len)
              case Junk(_) => false
  {
    if t.Slash? && t.len <= 32 {
      if p.net % Pow2(32 - t.len) == 0 && p.net <= t.addr < p.net + Pow2(32 - t.len) {
        AlignedOnce(p.net, Network(t.addr, t.len), t.addr, Pow2(32 - t.len));
      }
    }
  }

  ghost predicate Reads(t: Text) {
    exists p :: Parse(t) == Some(p)
  }

  /** Some text of the list stands for p. */
  ghost predicate Named(ts: seq<Text>, p: Prefix) {
    exists i :: 0 <= i < |ts| && Parse(ts[i]) == Some(p)
  }

  lemma NamedIff(ts: seq<Text>, p: Prefix)
    ensures p in Prefixes(ts) <==> Named(ts, p)
  {
    if p in Prefixes(ts) {
      var t :| t in ts && Parse(t).Some? && Parse(t).value == p;
      var i :| 0 <= i < |ts| && ts[i] == t;
    }
    if Named(ts, p) {
      var i :| 0 <= i < |ts| && Parse(ts[i]) == Some(p);
      assert ts[i] in ts;
    }
  }

  lemma ReadsIff(ts: seq<Text>)
    ensures AllParse(ts) <==> forall t :: t in ts ==> Reads(t)
  {
    forall t ensures Reads(t) <==> Parse(t).Some? { if Parse(t).Some? { assert Parse(t) == Some(Parse(t).value); } }
  }

  /** Peer k holds exactly the prefixes that the request names, and nobody else holds any of them; otherwise
      the others hold what they held. */
  ghost predicate Holds(s: State, d: State, k: PubKey, priv: Text, pubs: seq<Text>) {
    && d.dev.Keys == s.dev.Keys + {k}
    && (forall p :: p in d.dev[k] <==> Named([priv] + pubs, p))
    && (forall l, p :: l in s.dev && l != k ==> (p in d.dev[l] <==> p in s.dev[l] && !Named([priv] + pubs, p)))
  }

  lemma ConfigureHolds(s: State, d: State, k: PubKey, priv: Text, pubs: seq<Text>)
    requires d.dev == Configure(s.dev, k, Allowed(priv, pubs))
    ensures Holds(s, d, k, priv, pubs)
  {
    forall p ensures p in Allowed(priv, pubs) <==> Named([priv] + pubs, p) { NamedIff([priv] + pubs, p); }
  }

  /** Peer k holds nothing; the others hold what they held. */
  ghost predicate HoldsNothing(s: State, d: State, k: PubKey) {
    && d.dev.Keys == s.dev.Keys + {k} && d.dev[k] == {}
    && forall l :: l in s.dev && l != k ==> d.dev[l] == s.dev[l]
  }

  /** CreatePeer: refused, with nothing changed, for a bad key, for a key known under another private address,
      and for a text that does not read; otherwise the peer is recorded as asked, holds exactly what was named,
      and its public prefixes are routed. */
  lemma CreateDoes(s: State, k: PubKey, id: string, priv: Text, pubs: seq<Text>)
    ensures var (d, r) := Created(s, k, id, priv, pubs);
            && (r == Ok <==> k.Key? && (k in s.meta ==> s.meta[k].priv == priv) && forall t :: t in [priv] + pubs ==> Reads(t))
            && (r != Ok ==> d == s && (r == Conflict <==> k.Key? && k in s.meta && s.meta[k].priv != priv))
            && (r == Ok ==>
                  && d.meta == s.meta[k := Meta(id, priv, pubs, Active)] && Holds(s, d, k, priv, pubs)
                  && forall p :: p in d.routes <==> p in s.routes || Named(pubs, p))
  {
    var (d, r) := Created(s, k, id, priv, pubs);
    ReadsIff([priv] + pubs);
    if r == Ok {
      ConfigureHolds(s, d, k, priv, pubs);
      forall p ensures p in d.routes <==> p in s.routes || Named(pubs, p) { NamedIff(pubs, p); }
    }
  }

  /** The route of p goes when an old text names it that the new list does not repeat, unless the new list
      names p again. */
  ghost predicate Withdrawn(had: seq<Text>, cur: seq<Text>, p: Prefix) {
    exists i :: 0 <= i < |had| && had[i] !in cur && Parse(had[i]) == Some(p)
  }

  lemma WithdrawnIff(had: seq<Text>, cur: seq<Text>, p: Prefix)
    ensures p in Prefixes(Removed(had, cur)) <==> Withdrawn(had, cur, p)
  {
    if p in Prefixes(Removed(had, cur)) {
      var t :| t in Removed(had, cur) && Parse(t).Some? && Parse(t).value == p;
      var i :| 0 <= i < |had| && had[i] == t;
    }
    if Withdrawn(had, cur, p) {
      var i :| 0 <= i < |had| && had[i] !in cur && Parse(had[i]) == Some(p);
      assert had[i] in Removed(had, cur);
    }
  }

  /** UpdatePeer, when the addresses recorded before read (they do over every run): the peer is recorded with
      the new lists under its old id and status, an unknown one as active; it holds exactly what was named, and
      routes are withdrawn for what was dropped and added for what is listed. */
  lemma UpdateDoes(s: State, k: PubKey, priv: Text, pubs: seq<Text>)
    requires k in s.meta ==> AllParse(s.meta[k].pubs)
    ensures var (d, r) := Updated(s, k, priv, pubs);
            && (r == Ok <==> k.Key? && forall t :: t in [priv] + pubs ==> Reads(t))
            && (r == Ok ==>
                  && d.meta == s.meta[k := if k in s.meta then s.meta[k].(priv := priv, pubs := pubs)
                                           else Meta("", priv, pubs, Active)]
                  && Holds(s, d, k, priv, pubs)
                  && forall p :: p in d.routes <==>
                       Named(pubs, p) || (p in s.routes && !(k in s.meta && Withdrawn(s.meta[k].pubs, pubs, p))))
            && (r != Ok ==> d.dev == s.dev && d.routes == s.routes &&
                            d.meta == if k.Key? && k !in s.meta then s.meta[k := Meta("", Junk(""), [], Active)]
                                      else s.meta)
  {
    var (d, r) := Updated(s, k, priv, pubs);
    ReadsIff([priv] + pubs);
    if k.Key? && AllParse([priv] + pubs) {
      UpdateIs(s, k, priv, pubs);
      ConfigureHolds(s, d, k, priv, pubs);
      forall p ensures p in d.routes <==>
                       Named(pubs, p) || (p in s.routes && !(k in s.meta && Withdrawn(s.meta[k].pubs, pubs, p)))
      {
        NamedIff(pubs, p);
        if k in s.meta { WithdrawnIff(s.meta[k].pubs, pubs, p); }
      }
    } else if k in s.meta {
      assert s.meta[k := s.meta[k]] == s.meta;
    }
  }

  /** DeletePeer: the peer is gone from metadata and device, its public prefixes are no longer routed, and
      nothing else changes. */
  lemma DeleteDoes(s: State, k: PubKey)
    requires k in s.meta ==> AllParse(s.meta[k].pubs)
    ensures var d := Deleted(s, k);
            if k.BadKey? then d == s else
              && d.meta == s.meta - {k} && d.dev == s.dev - {k}
              && forall p :: p in d.routes <==> p in s.routes && !(k in s.meta && Named(s.meta[k].pubs, p))
  {
    if k in s.meta { ReadableAll(s.meta[k].pubs); }
    forall p | k in s.meta ensures p in Prefixes(s.meta[k].pubs) <==> Named(s.meta[k].pubs, p) {
      NamedIff(s.meta[k].pubs, p);
    }
    if k !in s.meta { assert s.meta - {k} == s.meta; }
  }

  /** SuspendPeer: a known peer keeps its record but for the status, holds nothing, and is not routed to; the
      other peers are as before. */
  lemma SuspendDoes(s: State, k: PubKey)
    requires k in s.meta ==> AllParse(s.meta[k].pubs)
    ensures var (d, r) := SuspendedPeer(s, k);
            && (r == Ok <==> k.Key? && k in s.meta) && (r == Ok || (r == NotFound && d == s))
            && (r == Ok ==>
                  && d.meta == s.meta[k := Meta(s.meta[k].peerId, s.meta[k].priv, s.meta[k].pubs, Suspended)]
                  && HoldsNothing(s, d, k)
                  && forall p :: p in d.routes <==> p in s.routes && !Named(s.meta[k].pubs, p))
  {
    if k in s.meta {
      ReadableAll(s.meta[k].pubs);
      forall p ensures p in Prefixes(s.meta[k].pubs) <==> Named(s.meta[k].pubs, p) { NamedIff(s.meta[k].pubs, p); }
    }
  }

  /** ResumePeer: a known peer whose recorded addresses read is active again, holds exactly them, and its public
      ones are routed. */
  lemma ResumeDoes(s: State, k: PubKey)
    ensures var (d, r) := Resumed(s, k);
            && (r == NotFound <==> k.BadKey? || k !in s.meta)
            && (r == Ok <==> k.Key? && k in s.meta && forall t :: t in [s.meta[k].priv] + s.meta[k].pubs ==> Reads(t))
            && (r != Ok ==> d == s)
            && (r == Ok ==>
                  && d.meta == s.meta[k := Meta(s.meta[k].peerId, s.meta[k].priv, s.meta[k].pubs, Active)]
                  && Holds(s, d, k, s.meta[k].priv, s.meta[k].pubs)
                  && forall p :: p in d.routes <==> p in s.routes || Named(s.meta[k].pubs, p))
  {
    var (d, r) := Resumed(s, k);
    if k.Key? && k in s.meta {
      var m := s.meta[k];
      ReadsIff([m.priv] + m.pubs);
      if r == Ok {
        ConfigureHolds(s, d, k, m.priv, m.pubs);
        forall p ensures p in d.routes <==> p in s.routes || Named(m.pubs, p) { NamedIff(m.pubs, p); }
      }
    }
  }

  // ----- from a coherent agent -----

  lemma CoherentReads(s: State, k: PubKey)
    requires Coherent(s) && k in s.meta
    ensures k.Key? && k in s.dev && AllParse([s.meta[k].priv] + s.meta[k].pubs) && AllParse(s.meta[k].pubs)
  {
    assert PeerCoherent(s, k);
    PrefixesSplit(s.meta[k].priv, s.meta[k].pubs);
  }

  /** Suspending any known peer of a coherent agent cuts it off: it may send and receive nothing, none of its
      public prefixes is routed, and the routes of everybody else stay. */
  lemma SuspendCutsOff(s: State, k: PubKey)
    requires Coherent(s) && k in s.meta
    ensures var (d, r) := SuspendedPeer(s, k);
            && r == Ok && k in d.meta && d.meta[k].status == Suspended && k in d.dev && d.dev[k] == {}
            && (forall p :: Named(s.meta[k].pubs, p) ==> p !in d.routes)
            && (forall l, p :: l != k && Serves(s, l, p) ==> p in d.routes)
  {
    CoherentReads(s, k);
    SuspendDoes(s, k);
    var d := SuspendedPeer(s, k).0;
    forall l, p | l != k && Serves(s, l, p) ensures p in d.routes {
      assert Served(s, p);
      NamedIff(s.meta[k].pubs, p);
      if Named(s.meta[k].pubs, p) {
        assert Records(s, k, p);
        ServesUnique(s, k, l, p);
      }
    }
  }

  /** Resuming a suspended peer of a coherent agent serves it again: its AllowedIPs are its private address and
      its public prefixes, all of these are routed, and nobody else's AllowedIPs change. */
  lemma ResumeServes(s: State, k: PubKey)
    requires Coherent(s) && k in s.meta
    ensures var (d, r) := Resumed(s, k); var m := s.meta[k];
            && r == Ok && k in d.meta && d.meta[k].status == Active && k in d.dev
            && (forall p :: p in d.dev[k] <==> Named([m.priv] + m.pubs, p))
            && (forall p :: Named(m.pubs, p) ==> p in d.routes)
            && (forall l :: l in s.dev && l != k ==> l in d.dev && d.dev[l] == s.dev[l])
  {
    CoherentReads(s, k);
    var m := s.meta[k];
    ReadsIff([m.priv] + m.pubs);
    ResumeDoes(s, k);
    var d := Resumed(s, k).0;
    forall l | l in s.dev && l != k ensures d.dev[l] == s.dev[l] {
      assert PeerCoherent(s, l);
      assert AllowedOf(s.meta[l]) !! AllowedOf(m);
      assert d.dev[l] == s.dev[l] - AllowedOf(m);
    }
  }

  lemma ConfigureBack(dev: map<PubKey, set<Prefix>>, k: PubKey, ips: set<Prefix>)
    requires k in dev && dev[k] == ips && forall l :: l in dev && l != k ==> dev[l] !! ips
    ensures Configure(Configure(dev, k, {}), k, ips) == dev
  {
    var off := Configure(dev, k, {});
    assert off.Keys == dev.Keys && forall l :: l in dev && l != k ==> off[l] == dev[l];
    var on := Configure(off, k, ips);
    assert on.Keys == dev.Keys;
    forall l | l in dev ensures on[l] == dev[l] {
      if l != k { assert dev[l] - ips == dev[l]; }
    }
  }

  lemma DeviceBack(s: State, k: PubKey)
    requires Coherent(s) && k in s.meta && s.meta[k].status == Active
    ensures Configure(Configure(s.dev, k, {}), k, AllowedOf(s.meta[k])) == s.dev
  {
    assert PeerCoherent(s, k);
    forall l | l in s.dev && l != k ensures s.dev[l] !! AllowedOf(s.meta[k]) {
      assert PeerCoherent(s, l);
      assert AllowedOf(s.meta[l]) !! AllowedOf(s.meta[k]);
    }
    ConfigureBack(s.dev, k, AllowedOf(s.meta[k]));
  }

  lemma RoutesBack(s: State, k: PubKey)
    requires Coherent(s) && k in s.meta && s.meta[k].status == Active
    ensures s.routes - Prefixes(s.meta[k].pubs) + Prefixes(s.meta[k].pubs) == s.routes
  {
    forall p | p in Prefixes(s.meta[k].pubs) ensures p in s.routes { assert Serves(s, k, p) && Served(s, p); }
  }

  lemma SuspendedIs(s: State, k: PubKey)
    requires k.Key? && k in s.meta && AllParse(s.meta[k].pubs)
    ensures SuspendedPeer(s, k).0 == State(s.meta[k := s.meta[k].(status := Suspended)], Configure(s.dev, k, {}),
                                           s.routes - Prefixes(s.meta[k].pubs))
  {
    ReadableAll(s.meta[k].pubs);
  }

  lemma ResumedIs(s: State, k: PubKey)
    requires k.Key? && k in s.meta && AllParse([s.meta[k].priv] + s.meta[k].pubs)
    ensures Resumed(s, k) == (State(s.meta[k := s.meta[k].(status := Active)], Configure(s.dev, k, AllowedOf(s.meta[k])),
                                    s.routes + Prefixes(s.meta[k].pubs)), Ok)
  {
  }

  lemma ResumesTo(s: State, d: State, k: PubKey, m: Meta)
    requires k.Key? && k in s.meta && m == s.meta[k] && m.status == Active && AllParse([m.priv] + m.pubs)
    requires d == State(s.meta[k := m.(status := Suspended)], Configure(s.dev, k, {}), s.routes - Prefixes(m.pubs))
    requires Configure(Configure(s.dev, k, {}), k, AllowedOf(m)) == s.dev
    requires s.routes - Prefixes(m.pubs) + Prefixes(m.pubs) == s.routes
    ensures Resumed(d, k) == (s, Ok)
  {
    ResumedIs(d, k);
    assert d.meta[k].(status := Active) == m;
    assert d.meta[k := m] == s.meta;
  }

  /** Suspending an active peer of a coherent agent and resuming it restores the agent exactly. */
  lemma SuspendResume(s: State, k: PubKey)
    requires Coherent(s) && k in s.meta && s.meta[k].status == Active
    ensures Resumed(SuspendedPeer(s, k).0, k) == (s, Ok)
  {
    CoherentReads(s, k);
    SuspendedIs(s, k);
    DeviceBack(s, k);
    RoutesBack(s, k);
    ResumesTo(s, SuspendedPeer(s, k).0, k, s.meta[k]);
  }
}

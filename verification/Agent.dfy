/** The gateway agent's WireGuard backend: in-memory metadata, the AllowedIPs that the kernel
    device holds for each peer, and the link-scoped routes (gateway-agent/internal/wg/kernel.go). */
module Agent {
  import opened Common
  import opened Arith

  type Addr = n: int | 0 <= n < 0x1_0000_0000

  /** Address text as it travels over the API.  `Junk` is every string that neither ParseIP nor
      ParseCIDR accepts; the empty string, which stands for "not set", is `Junk("")`. */
  datatype Text = Bare(addr: Addr) | Slash(addr: Addr, len: nat) | Junk(raw: string)

  datatype Prefix = Prefix(net: Addr, len: nat)

  const UNSET := Junk("")

  /** parseCIDR: a bare address is a /32, otherwise the host bits are masked away. */
  function Parse(t: Text): (r: Option<Prefix>)
    ensures r.Some? ==> r.value.len <= 32 && r.value.net % Pow2(32 - r.value.len) == 0
  {
    match t
    case Bare(a) => Some(Prefix(a, 32))
    case Slash(a, len) => if len <= 32 then Some(Prefix(Network(a, len), len)) else None
    case Junk(_) => None
  }

  function Network(a: Addr, len: nat): (n: Addr)
    requires len <= 32
    ensures n % Pow2(32 - len) == 0 && n <= a < n + Pow2(32 - len)
  {
    var size := Pow2(32 - len);
    FloorMultiple(a, size);
    a - a % size
  }

  ghost predicate AllParse(ts: seq<Text>) {
    forall t :: t in ts ==> Parse(t).Some?
  }

  /** The prefixes a list of texts stands for. */
  function Prefixes(ts: seq<Text>): (s: set<Prefix>) {
    set t | t in ts && Parse(t).Some? :: Parse(t).value
  }

  /** The AllowedIPs of a peer: its private address and its public prefixes. */
  function Allowed(priv: Text, pubs: seq<Text>): (s: set<Prefix>) {
    Prefixes([priv] + pubs)
  }

  datatype PeerStatus = Active | Suspended

  datatype Meta = Meta(peerId: string, priv: Text, pubs: seq<Text>, status: PeerStatus)

  /** The publicKey slot: either a key that wgtypes.ParseKey accepts, or not. */
  datatype PubKey = Key(id: nat) | BadKey(raw: string)

  datatype Reply = Ok | Invalid | Conflict | NotFound

  datatype State = State(meta: map<PubKey, Meta>, dev: map<PubKey, set<Prefix>>, routes: set<Prefix>)

  /** The kernel's cryptokey routing table: a prefix belongs to the peer configured last with it. */
  function Configure(dev: map<PubKey, set<Prefix>>, k: PubKey, ips: set<Prefix>): map<PubKey, set<Prefix>> {
    (map p | p in dev :: dev[p] - ips)[k := ips]
  }

  /** The texts that `route` gets through before it stops at one that does not parse. */
  function Readable(ts: seq<Text>): (n: nat)
    ensures n <= |ts|
    ensures forall i :: 0 <= i < n ==> Parse(ts[i]).Some?
    ensures n < |ts| ==> Parse(ts[n]).None?
    ensures AllParse(ts) <==> n == |ts|
  {
    if ts == [] || Parse(ts[0]).None? then 0 else 1 + Readable(ts[1..])
  }

  function Removed(had: seq<Text>, cur: seq<Text>): (r: seq<Text>)
    ensures forall t :: t in r <==> t in had && t !in cur
  {
    if had == [] then []
    else if had[0] in cur then Removed(had[1..], cur)
    else [had[0]] + Removed(had[1..], cur)
  }

  // ----- the five operations, as functions of the state -----

  function Created(s: State, k: PubKey, peerId: string, priv: Text, pubs: seq<Text>): (State, Reply) {
    if k.BadKey? then (s, Invalid)
    else if k in s.meta && s.meta[k].priv != priv then (s, Conflict)
    else if Readable([priv] + pubs) < 1 + |pubs| then (s, Invalid)
    else (State(s.meta[k := Meta(peerId, priv, pubs, Active)],
                Configure(s.dev, k, Allowed(priv, pubs)),
                s.routes + Prefixes(pubs)), Ok)
  }

  function MetaOrNew(s: State, k: PubKey): Meta {
    if k in s.meta then s.meta[k] else Meta("", UNSET, [], Active)
  }

  function Updated(s: State, k: PubKey, priv: Text, pubs: seq<Text>): (State, Reply) {
    if k.BadKey? then (s, Invalid) else
    var m := MetaOrNew(s, k);
    var meta := s.meta[k := m];
    if Readable([priv] + pubs) < 1 + |pubs| then (s.(meta := meta), Invalid) else
    var dev := Configure(s.dev, k, Allowed(priv, pubs));
    var gone := Removed(m.pubs, pubs);
    var n := Readable(gone);
    var routes := s.routes - Prefixes(gone[..n]);
    if n < |gone| then (State(meta, dev, routes), Invalid) else
    (State(meta[k := m.(priv := priv, pubs := pubs)], dev, routes + Prefixes(pubs)), Ok)
  }

  function Deleted(s: State, k: PubKey): State {
    if k.BadKey? then s
    else if k in s.meta then
      var pubs := s.meta[k].pubs;
      State(s.meta - {k}, s.dev - {k}, s.routes - Prefixes(pubs[..Readable(pubs)]))
    else s.(dev := s.dev - {k})
  }

  function SuspendedPeer(s: State, k: PubKey): (State, Reply) {
    if k.BadKey? || k !in s.meta then (s, NotFound) else
    var m := s.meta[k];
    (State(s.meta[k := m.(status := Suspended)], Configure(s.dev, k, {}),
           s.routes - Prefixes(m.pubs[..Readable(m.pubs)])), Ok)
  }

  function Resumed(s: State, k: PubKey): (State, Reply) {
    if k.BadKey? || k !in s.meta then (s, NotFound) else
    var m := s.meta[k];
    if Readable([m.priv] + m.pubs) < 1 + |m.pubs| then (s, Invalid) else
    (State(s.meta[k := m.(status := Active)], Configure(s.dev, k, Allowed(m.priv, m.pubs)),
           s.routes + Prefixes(m.pubs)), Ok)
  }

  /** What ListPeers reports: one entry per device peer, with empty addresses when the metadata is gone. */
  datatype Report = Report(priv: Text, pubs: seq<Text>)

  function Reported(s: State): (r: map<PubKey, Report>)
    ensures r.Keys == s.dev.Keys
  {
    map k | k in s.dev :: if k in s.meta then Report(s.meta[k].priv, s.meta[k].pubs) else Report(UNSET, [])
  }

  /** Every stored list went through `allowed`, so it parses. */
  ghost predicate StoredParse(s: State) {
    forall k :: k in s.meta ==> AllParse(s.meta[k].pubs)
  }

  lemma ReadableAll(ts: seq<Text>)
    requires AllParse(ts)
    ensures Readable(ts) == |ts| && ts[..Readable(ts)] == ts
  {
  }

  // ----- the manager itself -----

  /** KernelManager: the state lives in fields that the methods update step by step. */
  class KernelManager {
    var meta: map<PubKey, Meta>
    var dev: map<PubKey, set<Prefix>>
    var routes: set<Prefix>

    ghost function View(): State
      reads this
    {
      State(meta, dev, routes)
    }

    /** A restart: metadata is in memory, the kernel keeps its peers and routes. */
    constructor (dev: map<PubKey, set<Prefix>>, routes: set<Prefix>)
      ensures View() == State(map[], dev, routes)
    {
      meta, this.dev, this.routes := map[], dev, routes;
    }

    /** allowed: fails on the first text that does not parse. */
    static method AllowedIPs(priv: Text, pubs: seq<Text>) returns (r: Option<set<Prefix>>)
      ensures r.None? <==> Readable([priv] + pubs) < 1 + |pubs|
      ensures r.Some? ==> r.value == Allowed(priv, pubs) && AllParse(pubs)
    {
      var all := [priv] + pubs;
      var out: set<Prefix> := {};
      for i := 0 to |all|
        invariant AllParse(all[..i])
        invariant out == Prefixes(all[..i])
      {
        var p := Parse(all[i]);
        if p.None? {
          assert all[i] in all;
          return None;
        }
        out := out + {p.value};
        assert all[..i + 1] == all[..i] + [all[i]];
      }
      assert all[..|all|] == all;
      return Some(out);
    }

    /** route: installs or removes one route per text, stopping at one that does not parse. */
    method Route(add: bool, ts: seq<Text>) returns (ok: bool)
      modifies this`routes
      ensures ok <==> Readable(ts) == |ts|
      ensures routes == if add then old(routes) + Prefixes(ts[..Readable(ts)])
                        else old(routes) - Prefixes(ts[..Readable(ts)])
    {
      for i := 0 to |ts|
        invariant i <= Readable(ts)
        invariant routes == if add then old(routes) + Prefixes(ts[..i]) else old(routes) - Prefixes(ts[..i])
      {
        var p := Parse(ts[i]);
        if p.None? {
          return false;
        }
        routes := if add then routes + {p.value} else routes - {p.value};
        assert ts[..i + 1] == ts[..i] + [ts[i]];
        assert Prefixes(ts[..i + 1]) == Prefixes(ts[..i]) + {p.value};
      }
      assert ts[..|ts|] == ts;
      return true;
    }

    /** diff: what the old list held and the new one does not. */
    static method Diff(had: seq<Text>, cur: seq<Text>) returns (removed: seq<Text>)
      ensures removed == Removed(had, cur)
    {
      removed := [];
      for i := 0 to |had|
        invariant removed + Removed(had[i..], cur) == Removed(had, cur)
      {
        assert had[i..][1..] == had[i + 1..];
        if had[i] !in cur {
          removed := removed + [had[i]];
        }
      }
    }

    method ListPeers() returns (r: map<PubKey, Report>)
      ensures r == Reported(View())
    {
      r := map k | k in dev :: if k in meta then Report(meta[k].priv, meta[k].pubs) else Report(UNSET, []);
    }

    method CreatePeer(k: PubKey, peerId: string, priv: Text, pubs: seq<Text>) returns (reply: Reply)
      modifies this
      ensures (View(), reply) == Created(old(View()), k, peerId, priv, pubs)
    {
      if k.BadKey? { return Invalid; }
      if k in meta && meta[k].priv != priv { return Conflict; }
      var ips := AllowedIPs(priv, pubs);
      if ips.None? { return Invalid; }
      dev := Configure(dev, k, ips.value);
      var ok := Route(true, pubs);
      ReadableAll(pubs);
      meta := meta[k := Meta(peerId, priv, pubs, Active)];
      return Ok;
    }

    method UpdatePeer(k: PubKey, priv: Text, pubs: seq<Text>) returns (reply: Reply)
      modifies this
      ensures (View(), reply) == Updated(old(View()), k, priv, pubs)
    {
      if k.BadKey? { return Invalid; }
      if k !in meta {
        meta := meta[k := Meta("", UNSET, [], Active)];
      }
      assert meta == old(meta)[k := MetaOrNew(old(View()), k)];
      var ips := AllowedIPs(priv, pubs);
      if ips.None? { return Invalid; }
      dev := Configure(dev, k, ips.value);
      var removed := Diff(meta[k].pubs, pubs);
      var ok := Route(false, removed);
      if !ok { return Invalid; }
      ok := Route(true, pubs);
      ReadableAll(pubs);
      meta := meta[k := meta[k].(priv := priv, pubs := pubs)];
      return Ok;
    }

    method DeletePeer(k: PubKey)
      modifies this
      ensures View() == Deleted(old(View()), k)
    {
      if k.BadKey? { return; }
      dev := dev - {k};
      if k in meta {
        var _ := Route(false, meta[k].pubs);
        meta := meta - {k};
      }
    }

    method SuspendPeer(k: PubKey) returns (reply: Reply)
      modifies this
      ensures (View(), reply) == SuspendedPeer(old(View()), k)
    {
      if k.BadKey? || k !in meta { return NotFound; }
      dev := Configure(dev, k, {});
      var _ := Route(false, meta[k].pubs);
      meta := meta[k := meta[k].(status := Suspended)];
      return Ok;
    }

    method ResumePeer(k: PubKey) returns (reply: Reply)
      modifies this
      ensures (View(), reply) == Resumed(old(View()), k)
    {
      if k.BadKey? || k !in meta { return NotFound; }
      var ips := AllowedIPs(meta[k].priv, meta[k].pubs);
      if ips.None? { return Invalid; }
      dev := Configure(dev, k, ips.value);
      var ok := Route(true, meta[k].pubs);
      ReadableAll(meta[k].pubs);
      meta := meta[k := meta[k].(status := Active)];
      return Ok;
    }
  }
}

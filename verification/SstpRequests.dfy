/** What each request to the SSTP manager leaves in memory and on disk, and what a restart later gives back
    (gateway-agent/internal/wg/sstp.go). */
module SstpRequests {
  import opened Common
  import opened SstpText
  import opened HostLists
  import opened Sstp

  /** Other users' records are as before. */
  ghost predicate OthersKept(n: Node, d: Node, u: Text) {
    forall v :: v != u ==> (v in d.meta <==> v in n.meta) && (v in n.meta ==> d.meta[v] == n.meta[v])
  }

  /** The create is refused: no key, no address, or a user known under another address. */
  ghost predicate Refused(n: Node, key: Text, ip: Text) {
    key == [] || ip == [] || (Sanitize(key) in n.meta && n.meta[Sanitize(key)].privateIp != ip)
  }

  /** A create that is not refused records exactly what was asked for, active; only the password of a known
      user is kept.  The files say what memory says, and other users keep theirs. */
  lemma CreateDoes(n: Node, id: Text, key: Text, ip: Text, ips: seq<Text>, speed: int, pw: Text, d: Node)
    requires Next(n, Create(id, key, ip, ips, speed, pw), d)
    ensures var u := Sanitize(key);
            if Refused(n, key, ip) then d == n else
              && u in d.meta && OthersKept(n, d, u)
              && d.meta[u] == Peer(id, key, if u in n.meta then n.meta[u].password else pw, ip, ips, speed, Active)
              && OnDisk(d.files, u, d.meta[u]) && TmpFile(u) !in d.files && Elsewhere(n.files, d.files, u) && Fresh(d)
  {
    var u := Sanitize(key);
    if !Refused(n, key, ip) {
      SavedOnDisk(n.files, u, d.meta[u]);
      SuffixApart(u, u);
    }
  }

  /** An update records the new key, address and list; a rate of zero keeps the old cap; peer id, password and
      status of a known user stay, and an unknown user appears, active, with the given password. */
  lemma UpdateDoes(n: Node, key: Text, ip: Text, ips: seq<Text>, speed: int, pw: Text, d: Node)
    requires Next(n, Update(key, ip, ips, speed, pw), d)
    ensures var u := Sanitize(key); var known := u in n.meta;
            && u in d.meta && OthersKept(n, d, u)
            && d.meta[u] == Peer(if known then n.meta[u].peerId else [], key,
                                 if known then n.meta[u].password else pw, ip, ips,
                                 if speed > 0 then speed else if known then n.meta[u].speed else 0,
                                 if known then n.meta[u].status else Active)
            && (key != [] ==> OnDisk(d.files, u, d.meta[u]))
            && TmpFile(u) !in d.files && Elsewhere(n.files, d.files, u) && Fresh(d)
  {
    var u := Sanitize(key);
    if key != [] { SavedOnDisk(n.files, u, d.meta[u]); }
    SuffixApart(u, u);
  }

  /** A delete forgets the user and removes its three files. */
  lemma DeleteDoes(n: Node, key: Text, d: Node)
    requires Next(n, Delete(key), d)
    ensures var u := Sanitize(key);
            && u !in d.meta && OthersKept(n, d, u) && Fresh(d)
            && u !in d.files && CnFile(u) !in d.files && RateFile(u) !in d.files
            && forall f :: f != u && f != CnFile(u) && f != RateFile(u) ==>
                 (f in d.files <==> f in n.files) && (f in n.files ==> d.files[f] == n.files[f])
  {
  }

  /** A suspend empties the routes file and keeps the record but for the status. */
  lemma SuspendDoes(n: Node, key: Text, d: Node)
    requires Next(n, Suspend(key), d)
    ensures var u := Sanitize(key);
            if u !in n.meta then d == n else
              && u in d.meta && OthersKept(n, d, u) && Fresh(d) && Elsewhere(n.files, d.files, u)
              && d.meta[u] == n.meta[u].(status := Suspended)
              && u in d.files && d.files[u] == []
  {
  }

  /** A resume writes the host list again and makes the user active. */
  lemma ResumeDoes(n: Node, key: Text, d: Node)
    requires Next(n, Resume(key), d)
    ensures var u := Sanitize(key);
            if u !in n.meta then d == n else
              && u in d.meta && OthersKept(n, d, u) && Fresh(d) && Elsewhere(n.files, d.files, u)
              && d.meta[u] == n.meta[u].(status := Active)
              && u in d.files && d.files[u] == Unlines(With32(Expand(n.meta[u].publicIps)))
  {
  }

  // ----- the last request, after any number of restarts -----

  /** An accepted create, or an update, for this user. */
  ghost predicate Sets(n: Node, e: Event, u: Text) {
    (e.Create? || e.Update?) && Sanitize(e.key) == u && (e.Create? ==> !Refused(n, e.key, e.ip))
  }

  /** What the request asks for, given what was known before. */
  ghost predicate AsAsked(n: Node, e: Event, u: Text, p: Peer)
    requires e.Create? || e.Update?
  {
    && p.rawKey == e.key && p.privateIp == e.ip && Expand(p.publicIps) == Expand(e.ips)
    && p.speed == (if e.Create? || e.speed > 0 then e.speed else if u in n.meta then n.meta[u].speed else 0)
    && p.password == if u in n.meta then n.meta[u].password else e.secret
  }

  lemma SetsAsAsked(n: Node, e: Event, d: Node, u: Text)
    requires Next(n, e, d) && Sets(n, e, u)
    ensures u in d.meta && AsAsked(n, e, u, d.meta[u])
  {
    match e
    case Create(id, key, ip, ips, speed, pw) => CreateDoes(n, id, key, ip, ips, speed, pw, d);
    case Update(key, ip, ips, speed, pw) => UpdateDoes(n, key, ip, ips, speed, pw, d);
  }

  /** A step that takes the user off the air. */
  ghost predicate Silences(e: Event, u: Text) {
    (e.Suspend? || e.Delete?) && Sanitize(e.key) == u
  }

  /** The record keeps what a request set, up to the spelling of the host list. */
  ghost predicate Same(p: Peer, q: Peer) {
    && q.rawKey == p.rawKey && q.privateIp == p.privateIp && q.password == p.password && q.speed == p.speed
    && Expand(q.publicIps) == Expand(p.publicIps)
  }

  lemma RestartSame(n: Node, d: Node, u: Text)
    requires Written(n) && Next(n, Restart, d)
    ensures u in d.meta <==> u in n.meta && n.meta[u].status == Active
    ensures u in d.meta ==> Same(n.meta[u], d.meta[u]) && d.meta[u].status == Active
  {
    RestartRebuilds(n);
  }

  lemma OtherSame(n: Node, e: Event, d: Node, u: Text)
    requires Next(n, e, d) && !Sets(n, e, u) && !e.Restart?
    ensures u in d.meta ==> u in n.meta && Same(n.meta[u], d.meta[u])
    ensures !Silences(e, u) && u in n.meta && n.meta[u].status == Active ==> u in d.meta && d.meta[u].status == Active
  {
    match e
    case Create(id, key, ip, ips, speed, pw) => CreateDoes(n, id, key, ip, ips, speed, pw, d);
    case Update(key, ip, ips, speed, pw) => UpdateDoes(n, key, ip, ips, speed, pw, d);
    case Delete(key) => DeleteDoes(n, key, d);
    case Suspend(key) => SuspendDoes(n, key, d);
    case Resume(key) => ResumeDoes(n, key, d);
  }

  lemma StepSame(n: Node, e: Event, d: Node, u: Text)
    requires Written(n) && Next(n, e, d) && !Sets(n, e, u)
    ensures u in d.meta ==> u in n.meta && Same(n.meta[u], d.meta[u])
    ensures !Silences(e, u) && u in n.meta && n.meta[u].status == Active ==> u in d.meta && d.meta[u].status == Active
  {
    if e.Restart? { RestartSame(n, d, u); } else { OtherSame(n, e, d, u); }
  }

  ghost predicate IsRun(ns: seq<Node>, es: seq<Event>, names: set<Text>) {
    && |ns| == |es| + 1 && Written(ns[0]) && Clashfree(names) && ns[0].meta.Keys <= names
    && forall i :: 0 <= i < |es| ==> Next(ns[i], es[i], ns[i + 1]) && Clean(es[i]) && Names(es[i], names)
  }

  lemma RunWritten(ns: seq<Node>, es: seq<Event>, names: set<Text>, i: nat)
    requires IsRun(ns, es, names) && i <= |es|
    ensures Written(ns[i])
  {
    RunRebuilds(ns[..i + 1], es[..i], names);
  }

  /** No other request for the user is accepted between step k and step i. */
  ghost predicate Untouched(ns: seq<Node>, es: seq<Event>, k: nat, i: nat, u: Text)
    requires i <= |es| <= |ns|
  {
    forall j :: k < j < i ==> !Sets(ns[j], es[j], u)
  }

  ghost predicate OnAir(n: Node, u: Text) {
    u in n.meta && n.meta[u].status == Active
  }

  lemma AskedOn(n: Node, e: Event, u: Text, p: Peer, q: Peer)
    requires (e.Create? || e.Update?) && AsAsked(n, e, u, p) && Same(p, q)
    ensures AsAsked(n, e, u, q)
  {
  }

  lemma {:induction false} StillAsAsked(ns: seq<Node>, es: seq<Event>, names: set<Text>, k: nat, u: Text, i: nat)
    requires IsRun(ns, es, names) && k < i <= |es| && Sets(ns[k], es[k], u) && Untouched(ns, es, k, i, u)
    ensures u in ns[i].meta ==> AsAsked(ns[k], es[k], u, ns[i].meta[u])
    decreases i
  {
    assert Next(ns[i - 1], es[i - 1], ns[i - 1 + 1]);
    if i == k + 1 {
      SetsAsAsked(ns[k], es[k], ns[i], u);
    } else {
      StillAsAsked(ns, es, names, k, u, i - 1);
      RunWritten(ns, es, names, i - 1);
      StepSame(ns[i - 1], es[i - 1], ns[i], u);
      if u in ns[i].meta { AskedOn(ns[k], es[k], u, ns[i - 1].meta[u], ns[i].meta[u]); }
    }
  }

  lemma {:induction false} StillOnAir(ns: seq<Node>, es: seq<Event>, names: set<Text>, k: nat, u: Text, i: nat)
    requires IsRun(ns, es, names) && k < i <= |es| && Untouched(ns, es, k, i, u) && OnAir(ns[k + 1], u)
    requires forall j :: k < j < i ==> !Silences(es[j], u)
    ensures OnAir(ns[i], u)
    decreases i
  {
    if i > k + 1 {
      assert Next(ns[i - 1], es[i - 1], ns[i - 1 + 1]);
      StillOnAir(ns, es, names, k, u, i - 1);
      RunWritten(ns, es, names, i - 1);
      StepSame(ns[i - 1], es[i - 1], ns[i], u);
    }
  }

  /** Whatever calls and restarts follow, as long as no other request for the user is accepted: a reload gives
      the user back as the last accepted request asked, with its key, address, rate, password and the hosts of
      its list; and it does give the user back when the request left it active and nobody suspended or deleted
      it since. */
  lemma LastRequestSurvives(ns: seq<Node>, es: seq<Event>, names: set<Text>, k: nat, u: Text)
    requires IsRun(ns, es, names) && k < |es| && Sets(ns[k], es[k], u) && Untouched(ns, es, k, |es|, u)
    ensures var m := Load(ns[|es|].chap, ns[|es|].files);
            u in m ==> AsAsked(ns[k], es[k], u, m[u])
    ensures OnAir(ns[k + 1], u) && (forall j :: k < j < |es| ==> !Silences(es[j], u)) ==>
              u in Load(ns[|es|].chap, ns[|es|].files)
  {
    var n := ns[|es|];
    var m := Load(n.chap, n.files);
    StillAsAsked(ns, es, names, k, u, |es|);
    RunWritten(ns, es, names, |es|);
    RestartRebuilds(n);
    if u in m { AskedOn(ns[k], es[k], u, n.meta[u], m[u]); }
    if OnAir(ns[k + 1], u) && forall j :: k < j < |es| ==> !Silences(es[j], u) {
      StillOnAir(ns, es, names, k, u, |es|);
    }
  }
}

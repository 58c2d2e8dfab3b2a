/** The SSTP backend (gateway-agent/internal/wg/sstp.go): peers in memory, their credential, route, key
    and rate files, and the restart that rebuilds the one from the other. */
module Sstp {
  import opened Common
  import opened SstpText
  import opened HostLists

  datatype Status = Active | Suspended

  /** A peer's record; its user name is the map key. */
  datatype Peer = Peer(peerId: Text, rawKey: Text, password: Text, privateIp: Text, publicIps: seq<Text>,
                       speed: int, status: Status)

  /** Memory, /etc/ppp/chap-secrets, and the files of the routes directory by name. */
  datatype Node = Node(meta: map<Text, Peer>, chap: Text, files: map<Text, Text>)

  // ----- user names -----

  predicate SafeChar(c: char) {
    'a' <= c <= 'z' || 'A' <= c <= 'Z' || '0' <= c <= '9' || c == '-' || c == '_' || c == '.'
  }

  /** sanitizeCN. */
  function Sanitize(cn: Text): (u: Text)
    ensures |u| == |cn| && forall i :: 0 <= i < |cn| ==> u[i] == if SafeChar(cn[i]) then cn[i] else '_'
  {
    seq(|cn|, i requires 0 <= i < |cn| => if SafeChar(cn[i]) then cn[i] else '_')
  }

  predicate Safe(s: Text) {
    forall i :: 0 <= i < |s| ==> SafeChar(s[i])
  }

  /** A sanitized name is safe, and sanitizing leaves exactly the safe names alone. */
  lemma SanitizeSafe(cn: Text)
    ensures Safe(Sanitize(cn)) && Word(Sanitize(cn))
    ensures Sanitize(cn) == cn <==> Safe(cn)
  {
    if Safe(cn) { assert Sanitize(cn) == cn; }
    if Sanitize(cn) == cn { assert forall i :: 0 <= i < |cn| ==> SafeChar(Sanitize(cn)[i]); }
  }

  function CnFile(u: Text): Text { u + ".cn" }

  function RateFile(u: Text): Text { u + ".rate" }

  function TmpFile(u: Text): Text { u + ".tmp" }

  // ----- what is written -----

  const HEADER: Text := "# client\tserver" + ("\tsecret\tIP  " + ("(managed by " + "vpnhub-agent)"))

  const SERVER: Text := "sstp"

  function Line(u: Text, p: Peer): Text {
    u + ['\t'] + (SERVER + ['\t'] + (p.password + ['\t'] + p.privateIp))
  }

  /** The credential lines of these users, in this order. */
  function ChapLines(meta: map<Text, Peer>, order: seq<Text>): (ls: seq<Text>)
    requires forall u :: u in order ==> u in meta
    ensures |ls| == |order| && forall i :: 0 <= i < |order| ==> ls[i] == Line(order[i], meta[order[i]])
  {
    seq(|order|, i requires 0 <= i < |order| => Line(order[i], meta[order[i]]))
  }

  function ChapText(meta: map<Text, Peer>, order: seq<Text>): Text
    requires forall u :: u in order ==> u in meta
  {
    Unlines([HEADER] + ChapLines(meta, order))
  }

  /** The users who may authenticate, each once; the order is the map iteration's. */
  ghost predicate Enumerates(meta: map<Text, Peer>, order: seq<Text>) {
    Distinct(order) && forall u :: u in order <==> u in meta && meta[u].status == Active
  }

  function RoutesText(p: Peer): Text {
    if p.status == Suspended then [] else Unlines(With32(Expand(p.publicIps)))
  }

  function WithRoutes(files: map<Text, Text>, u: Text, p: Peer): map<Text, Text> {
    (files - {TmpFile(u)})[u := RoutesText(p)]
  }

  function WithCn(files: map<Text, Text>, u: Text, p: Peer): map<Text, Text> {
    if p.rawKey != [] then files[CnFile(u) := p.rawKey] else files
  }

  function WithRate(files: map<Text, Text>, u: Text, p: Peer): map<Text, Text> {
    if p.speed > 0 then files[RateFile(u) := Dec(p.speed) + ['\n']] else files - {RateFile(u)}
  }

  /** The three files that create and update write, in their order. */
  function Saved(files: map<Text, Text>, u: Text, p: Peer): map<Text, Text> {
    WithRate(WithCn(WithRoutes(files, u, p), u, p), u, p)
  }

  // ----- what is read back -----

  function LoadRoutes(ls: seq<Text>): seq<Text>
    decreases |ls|
  {
    if ls == [] then [] else
    var t := Trim(ls[|ls| - 1]);
    LoadRoutes(ls[..|ls| - 1]) + if t == [] then [] else [t]
  }

  function LoadSpeed(files: map<Text, Text>, u: Text): int {
    if RateFile(u) !in files then 0 else
    match Atoi(Trim(files[RateFile(u)]))
    case None => 0
    case Some(v) => v
  }

  function LoadPeer(files: map<Text, Text>, f: seq<Text>): Peer
    requires |f| >= 4
  {
    var u := f[0];
    Peer([], if CnFile(u) in files then Trim(files[CnFile(u)]) else [], f[2], f[3],
         if u in files then LoadRoutes(Split(files[u], '\n')) else [],
         LoadSpeed(files, u), Active)
  }

  /** The fields of a credential line, unless it is blank, a comment or too short. */
  function Entry(line: Text): Option<seq<Text>> {
    var t := Trim(line);
    if t == [] || t[0] == '#' || |Fields(t)| < 4 then None else Some(Fields(t))
  }

  function LoadLines(ls: seq<Text>, files: map<Text, Text>): map<Text, Peer>
    decreases |ls|
  {
    if ls == [] then map[] else
    var m := LoadLines(ls[..|ls| - 1], files);
    match Entry(ls[|ls| - 1])
    case None => m
    case Some(f) => if |f| >= 4 then m[f[0] := LoadPeer(files, f)] else m
  }

  /** loadChapSecrets. */
  function Load(chap: Text, files: map<Text, Text>): map<Text, Peer> {
    LoadLines(Split(chap, '\n'), files)
  }

  // ----- the operations, as relations between nodes -----

  datatype Event =
    | Create(id: Text, key: Text, ip: Text, ips: seq<Text>, speed: int, secret: Text)
    | Update(key: Text, ip: Text, ips: seq<Text>, speed: int, secret: Text)
    | Delete(key: Text)
    | Suspend(key: Text)
    | Resume(key: Text)
    | Restart

  /** The record an update starts from. */
  function Existing(meta: map<Text, Peer>, u: Text, pw: Text): Peer {
    if u in meta then meta[u] else Peer([], [], pw, [], [], 0, Active)
  }

  function UpdatedPeer(p: Peer, key: Text, ip: Text, ips: seq<Text>, speed: int): Peer {
    p.(rawKey := key, privateIp := ip, publicIps := ips, speed := if speed > 0 then speed else p.speed)
  }

  function CreatedPeer(meta: map<Text, Peer>, u: Text, id: Text, key: Text, ip: Text, ips: seq<Text>, speed: int,
                       pw: Text): Peer {
    Peer(id, key, Existing(meta, u, pw).password, ip, ips, speed, Active)
  }

  /** The credential file was just rewritten from memory. */
  ghost predicate Fresh(n: Node) {
    exists order :: Enumerates(n.meta, order) && n.chap == ChapText(n.meta, order)
  }

  ghost predicate Puts(n: Node, d: Node, u: Text, p: Peer, files: map<Text, Text>) {
    d.meta == n.meta[u := p] && d.files == files && Fresh(d)
  }

  ghost predicate Next(n: Node, e: Event, d: Node) {
    match e
    case Create(id, key, ip, ips, speed, pw) =>
      var u := Sanitize(key);
      if u == [] || ip == [] || (u in n.meta && n.meta[u].privateIp != ip) then d == n else
      var p := CreatedPeer(n.meta, u, id, key, ip, ips, speed, pw);
      Puts(n, d, u, p, Saved(n.files, u, p))
    case Update(key, ip, ips, speed, pw) =>
      var u := Sanitize(key);
      var p := UpdatedPeer(Existing(n.meta, u, pw), key, ip, ips, speed);
      Puts(n, d, u, p, Saved(n.files, u, p))
    case Delete(key) =>
      var u := Sanitize(key);
      d.meta == n.meta - {u} && d.files == Removed(n.files, u) && Fresh(d)
    case Suspend(key) =>
      var u := Sanitize(key);
      if u !in n.meta then d == n else
      var p := n.meta[u].(status := Suspended);
      Puts(n, d, u, p, WithRoutes(n.files, u, p))
    case Resume(key) =>
      var u := Sanitize(key);
      if u !in n.meta then d == n else
      var p := n.meta[u].(status := Active);
      Puts(n, d, u, p, WithRoutes(n.files, u, p))
    case Restart => d == n.(meta := Load(n.chap, n.files))
  }

  // ----- what every run keeps -----

  /** What the control plane sends: single words where the files need them. */
  ghost predicate Tidy(u: Text, p: Peer) {
    && u != [] && Safe(u) && Word(p.password) && p.password != [] && Word(p.privateIp) && p.privateIp != []
    && (forall c :: c in p.publicIps ==> Word(c)) && p.rawKey != [] && Trimmed(p.rawKey) && p.speed >= 0
  }

  ghost predicate OnDisk(files: map<Text, Text>, u: Text, p: Peer) {
    && u in files && files[u] == RoutesText(p)
    && CnFile(u) in files && files[CnFile(u)] == p.rawKey
    && (if p.speed > 0 then RateFile(u) in files && files[RateFile(u)] == Dec(p.speed) + ['\n']
        else RateFile(u) !in files)
  }

  /** A new gateway: nobody in memory and no credential file yet. */
  ghost predicate Blank(n: Node) {
    n.meta == map[] && n.chap == []
  }

  /** The files say what memory says. */
  ghost predicate Written(n: Node) {
    (Fresh(n) || Blank(n)) && forall u :: u in n.meta ==> Tidy(u, n.meta[u]) && OnDisk(n.files, u, n.meta[u])
  }

  /** No user's name is the name of another user's key, rate or temporary file. */
  ghost predicate Clashfree(names: set<Text>) {
    forall u, v :: u in names && v in names ==> v != CnFile(u) && v != RateFile(u) && v != TmpFile(u)
  }

  ghost predicate Own(u: Text, name: Text) {
    name == u || name == CnFile(u) || name == RateFile(u) || name == TmpFile(u)
  }

  lemma SuffixApart(u: Text, v: Text)
    ensures CnFile(u) == CnFile(v) ==> u == v
    ensures RateFile(u) == RateFile(v) ==> u == v
    ensures CnFile(u) != RateFile(v) && CnFile(u) != TmpFile(v) && RateFile(u) != TmpFile(v)
    ensures u != CnFile(u) && u != RateFile(u) && u != TmpFile(u)
  {
    assert CnFile(u)[..|u|] == u && RateFile(u)[..|u|] == u;
    assert CnFile(v)[..|v|] == v && RateFile(v)[..|v|] == v;
    assert CnFile(u)[|u| + 2] == 'n' && RateFile(v)[|v| + 4] == 'e' && TmpFile(v)[|v| + 3] == 'p' &&
        RateFile(u)[|u| + 4] == 'e';
  }

  /** The files of different users have different names. */
  lemma NamesApart(names: set<Text>, u: Text, v: Text)
    requires Clashfree(names) && u in names && v in names && u != v
    ensures !Own(u, v) && !Own(u, CnFile(v)) && !Own(u, RateFile(v))
  {
    SuffixApart(u, v);
    SuffixApart(v, u);
  }

  /** Only files of user u differ. */
  ghost predicate Elsewhere(files: map<Text, Text>, after: map<Text, Text>, u: Text) {
    forall name :: !Own(u, name) ==>
      (name in after <==> name in files) && (name in files ==> after[name] == files[name])
  }

  lemma OthersOnDisk(names: set<Text>, files: map<Text, Text>, after: map<Text, Text>, u: Text, v: Text, p: Peer)
    requires Clashfree(names) && u in names && v in names && u != v
    requires Elsewhere(files, after, u) && OnDisk(files, v, p)
    ensures OnDisk(after, v, p)
  {
    NamesApart(names, u, v);
  }

  lemma SavedOnDisk(files: map<Text, Text>, u: Text, p: Peer)
    requires p.rawKey != []
    ensures OnDisk(Saved(files, u, p), u, p) && Elsewhere(files, Saved(files, u, p), u)
  {
    SuffixApart(u, u);
  }

  /** Rewriting only the routes file. */
  lemma RoutesOnDisk(files: map<Text, Text>, u: Text, p: Peer, q: Peer)
    requires OnDisk(files, u, p) && q == p.(status := q.status)
    ensures OnDisk(WithRoutes(files, u, q), u, q) && Elsewhere(files, WithRoutes(files, u, q), u)
  {
    SuffixApart(u, u);
  }

  // ----- reading back what was written -----

  /** Words joined by tabs: the ends are the words' ends, and no line break is inside. */
  lemma JoinedWords(a: Text, b: Text, c: Text, d: Text)
    requires Word(a) && Word(b) && Word(c) && Word(d) && a != [] && d != []
    ensures var l := a + ['\t'] + (b + ['\t'] + (c + ['\t'] + d));
            l != [] && l[0] == a[0] && l[|l| - 1] == d[|d| - 1] && '\n' !in l
  {
  }

  lemma LineWord(u: Text, p: Peer)
    requires Tidy(u, p)
    ensures Trimmed(Line(u, p)) && Line(u, p) != [] && Line(u, p)[0] != '#' && '\n' !in Line(u, p)
    ensures Fields(Line(u, p)) == [u, SERVER, p.password, p.privateIp]
  {
    assert forall i :: 0 <= i < |u| ==> !Space(u[i]);
    assert SafeChar(u[0]);
    FourFields(u, SERVER, p.password, p.privateIp);
    JoinedWords(u, SERVER, p.password, p.privateIp);
  }

  lemma EntryOfLine(u: Text, p: Peer)
    requires Tidy(u, p)
    ensures Entry(Line(u, p)) == Some([u, SERVER, p.password, p.privateIp])
  {
    LineWord(u, p);
    TrimIs(Line(u, p));
  }

  lemma {:induction false} RoutesRoundTrip(ls: seq<Text>)
    requires forall i :: 0 <= i < |ls| ==> ls[i] != [] && Trimmed(ls[i])
    ensures LoadRoutes(ls) == ls
    decreases |ls|
  {
    if ls != [] {
      var n := |ls| - 1;
      RoutesRoundTrip(ls[..n]);
      TrimIs(ls[n]);
    }
  }

  lemma LoadRoutesBlank(ls: seq<Text>)
    ensures LoadRoutes(ls + [[]]) == LoadRoutes(ls)
  {
    assert (ls + [[]])[..|ls|] == ls;
    TrimIs([]);
  }

  lemma WordWith32(x: Text)
    requires Word(x)
    ensures x + SLASH32 != [] && Trimmed(x + SLASH32) && '\n' !in x + SLASH32
  {
    assert Word(SLASH32);
  }

  /** A routes file reads back as the host list, with /32 on each entry. */
  lemma RoutesFileRoundTrip(hs: seq<Text>)
    requires forall x :: x in hs ==> Word(x)
    ensures LoadRoutes(Split(Unlines(With32(hs)), '\n')) == With32(hs)
  {
    var ls := With32(hs);
    forall i | 0 <= i < |ls| ensures ls[i] != [] && Trimmed(ls[i]) && '\n' !in ls[i] {
      assert hs[i] in hs;
      WordWith32(hs[i]);
    }
    LinesRoundTrip(ls);
    RoutesRoundTrip(ls);
    LoadRoutesBlank(ls);
  }

  /** What survives a restart: all but the peer id, with the host list written out. */
  function Reloaded(p: Peer): Peer {
    Peer([], p.rawKey, p.password, p.privateIp, With32(Expand(p.publicIps)), p.speed, Active)
  }

  lemma SpeedRoundTrip(files: map<Text, Text>, u: Text, p: Peer)
    requires OnDisk(files, u, p) && p.speed >= 0
    ensures LoadSpeed(files, u) == p.speed
  {
    if p.speed > 0 { AtoiRoundTrip(p.speed); }
  }

  lemma PeerRoundTrip(files: map<Text, Text>, u: Text, p: Peer)
    requires Tidy(u, p) && OnDisk(files, u, p) && p.status == Active
    ensures LoadPeer(files, [u, SERVER, p.password, p.privateIp]) == Reloaded(p)
  {
    TrimIs(p.rawKey);
    SpeedRoundTrip(files, u, p);
    ExpandWords(p.publicIps);
    RoutesFileRoundTrip(Expand(p.publicIps));
  }

  lemma LoadSnoc(ls: seq<Text>, l: Text, files: map<Text, Text>)
    ensures LoadLines(ls + [l], files) ==
            if Entry(l).Some? && |Entry(l).value| >= 4
            then LoadLines(ls, files)[Entry(l).value[0] := LoadPeer(files, Entry(l).value)]
            else LoadLines(ls, files)
  {
    assert (ls + [l])[..|ls|] == ls;
  }

  lemma CommentSkipped(t: Text)
    requires t != [] && Trimmed(t) && t[0] == '#'
    ensures Entry(t).None?
  {
    TrimIs(t);
  }

  lemma BlankSkipped()
    ensures Entry([]).None?
  {
    TrimIs([]);
  }

  lemma HeaderLine()
    ensures HEADER != [] && Trimmed(HEADER) && HEADER[0] == '#' && '\n' !in HEADER
  {
    var a: Text, b: Text, c: Text, d: Text := "# client\tserver", "\tsecret\tIP  ", "(managed by ", "vpnhub-agent)";
    assert a[0] == '#' && d[|d| - 1] == ')';
    assert '\n' !in a;
    assert '\n' !in b;
    assert '\n' !in c;
    assert '\n' !in d;
    assert HEADER == a + (b + (c + d));
    assert HEADER[|HEADER| - 1] == d[|d| - 1];
  }

  lemma LoadLine(ls: seq<Text>, files: map<Text, Text>, u: Text, p: Peer)
    requires Tidy(u, p) && OnDisk(files, u, p) && p.status == Active
    ensures LoadLines(ls + [Line(u, p)], files) == LoadLines(ls, files)[u := Reloaded(p)]
  {
    EntryOfLine(u, p);
    PeerRoundTrip(files, u, p);
    LoadSnoc(ls, Line(u, p), files);
  }

  /** These users, each as it was written. */
  ghost predicate Rebuilt(m: map<Text, Peer>, meta: map<Text, Peer>, order: seq<Text>) {
    && (forall u :: u in m <==> u in order)
    && (forall u :: u in m ==> u in meta && m[u] == Reloaded(meta[u]))
  }

  lemma RebuiltSnoc(m: map<Text, Peer>, meta: map<Text, Peer>, order: seq<Text>, u: Text, p: Peer)
    requires Rebuilt(m, meta, order) && u in meta && p == Reloaded(meta[u])
    ensures Rebuilt(m[u := p], meta, order + [u])
  {
  }

  /** An active peer whose files are in place. */
  ghost predicate Ready(n: Node, u: Text) {
    u in n.meta && n.meta[u].status == Active && Tidy(u, n.meta[u]) && OnDisk(n.files, u, n.meta[u])
  }

  lemma LoadReady(n: Node, ls: seq<Text>, u: Text, order: seq<Text>)
    requires Ready(n, u) && Rebuilt(LoadLines(ls, n.files), n.meta, order)
    ensures Rebuilt(LoadLines(ls + [Line(u, n.meta[u])], n.files), n.meta, order + [u])
  {
    LoadLine(ls, n.files, u, n.meta[u]);
    RebuiltSnoc(LoadLines(ls, n.files), n.meta, order, u, Reloaded(n.meta[u]));
  }

  lemma LoadHeader(n: Node)
    ensures Rebuilt(LoadLines([HEADER], n.files), n.meta, [])
  {
    HeaderLine();
    CommentSkipped(HEADER);
    assert [] + [HEADER] == [HEADER];
    LoadSnoc([], HEADER, n.files);
  }

  lemma {:induction false} LoadOrder(n: Node, order: seq<Text>, ls: seq<Text>)
    requires forall u :: u in order ==> Ready(n, u)
    requires |ls| == |order|
    requires forall i :: 0 <= i < |order| ==> order[i] in n.meta && ls[i] == Line(order[i], n.meta[order[i]])
    ensures Rebuilt(LoadLines([HEADER] + ls, n.files), n.meta, order)
    decreases |order|
  {
    if order == [] {
      assert [HEADER] + ls == [HEADER];
      LoadHeader(n);
    } else {
      var k := |order| - 1;
      assert order == order[..k] + [order[k]];
      LoadOrder(n, order[..k], ls[..k]);
      assert [HEADER] + ls == ([HEADER] + ls[..k]) + [ls[k]];
      LoadReady(n, [HEADER] + ls[..k], order[k], order[..k]);
    }
  }

  // ----- restart -----

  lemma NoNewlines(n: Node, order: seq<Text>, ls: seq<Text>)
    requires forall u :: u in order ==> Ready(n, u)
    requires |ls| == |order|
    requires forall i :: 0 <= i < |order| ==> order[i] in n.meta && ls[i] == Line(order[i], n.meta[order[i]])
    ensures forall i :: 0 <= i < |[HEADER] + ls| ==> '\n' !in ([HEADER] + ls)[i]
  {
    HeaderLine();
    forall i | 0 <= i < |ls| ensures '\n' !in ls[i] {
      assert Ready(n, order[i]);
      LineWord(order[i], n.meta[order[i]]);
    }
  }

  lemma LoadRebuilds(n: Node, order: seq<Text>)
    requires (forall u :: u in order ==> u in n.meta && Ready(n, u)) && n.chap == ChapText(n.meta, order)
    ensures Rebuilt(Load(n.chap, n.files), n.meta, order)
  {
    var ls := ChapLines(n.meta, order);
    LoadOrder(n, order, ls);
    NoNewlines(n, order, ls);
    LinesRoundTrip([HEADER] + ls);
    BlankSkipped();
    LoadSnoc([HEADER] + ls, [], n.files);
  }

  lemma BlankLoads(n: Node)
    requires Blank(n)
    ensures Load(n.chap, n.files) == map[]
  {
    BlankSkipped();
    assert [] + [[]] == Split(n.chap, '\n');
    LoadSnoc([], [], n.files);
  }

  /** Loading the files rebuilds exactly the active peers: user, password, address, raw key, rate and
      expanded host list. */
  lemma RestartRebuilds(n: Node)
    requires Written(n)
    ensures var m := Load(n.chap, n.files);
            && (forall u :: u in m <==> u in n.meta && n.meta[u].status == Active)
            && (forall u :: u in m ==> m[u] == Reloaded(n.meta[u]))
            && (forall u :: u in m ==> Expand(m[u].publicIps) == Expand(n.meta[u].publicIps))
  {
    if !Fresh(n) {
      BlankLoads(n);
      return;
    }
    var order :| Enumerates(n.meta, order) && n.chap == ChapText(n.meta, order);
    LoadRebuilds(n, order);
    var m := Load(n.chap, n.files);
    forall u | u in m ensures Expand(m[u].publicIps) == Expand(n.meta[u].publicIps) {
      ExpandAgain(Expand(n.meta[u].publicIps));
    }
  }

  lemma ReloadedTidy(files: map<Text, Text>, u: Text, p: Peer)
    requires Tidy(u, p) && OnDisk(files, u, p) && p.status == Active
    ensures Tidy(u, Reloaded(p)) && OnDisk(files, u, Reloaded(p))
  {
    var hs := Expand(p.publicIps);
    ExpandWords(p.publicIps);
    forall c | c in With32(hs) ensures Word(c) {
      var i :| 0 <= i < |hs| && With32(hs)[i] == c;
      assert hs[i] in hs && Word(SLASH32);
    }
    ExpandAgain(hs);
  }

  lemma SameChap(meta: map<Text, Peer>, m: map<Text, Peer>, order: seq<Text>)
    requires Rebuilt(m, meta, order) && Enumerates(meta, order)
    ensures Enumerates(m, order) && ChapText(m, order) == ChapText(meta, order)
  {
    assert ChapLines(m, order) == ChapLines(meta, order);
  }

  lemma RestartWritten(n: Node)
    requires Written(n)
    ensures Written(n.(meta := Load(n.chap, n.files)))
  {
    if !Fresh(n) {
      BlankLoads(n);
      return;
    }
    var order :| Enumerates(n.meta, order) && n.chap == ChapText(n.meta, order);
    LoadRebuilds(n, order);
    var m := Load(n.chap, n.files);
    SameChap(n.meta, m, order);
    forall u | u in m ensures Tidy(u, m[u]) && OnDisk(n.files, u, m[u]) { ReloadedTidy(n.files, u, n.meta[u]); }
  }

  // ----- runs -----

  /** Requests as the control plane makes them. */
  ghost predicate Clean(e: Event) {
    match e
    case Create(_, key, ip, ips, speed, secret) =>
      Trimmed(key) && Word(ip) && (forall c :: c in ips ==> Word(c)) && speed >= 0 && Word(secret) && secret != []
    case Update(key, ip, ips, speed, secret) =>
      key != [] && Trimmed(key) && Word(ip) && ip != [] && (forall c :: c in ips ==> Word(c)) && Word(secret) &&
      secret != []
    case _ => true
  }

  ghost predicate Names(e: Event, names: set<Text>) {
    e.Restart? || Sanitize(e.key) in names
  }

  lemma PutKeeps(n: Node, d: Node, u: Text, p: Peer, files: map<Text, Text>, names: set<Text>)
    requires Written(n) && Puts(n, d, u, p, files) && Clashfree(names) && n.meta.Keys <= names && u in names
    requires Tidy(u, p) && OnDisk(files, u, p) && Elsewhere(n.files, files, u)
    ensures Written(d) && d.meta.Keys <= names
  {
    forall v | v in d.meta ensures Tidy(v, d.meta[v]) && OnDisk(d.files, v, d.meta[v]) {
      if v != u { OthersOnDisk(names, n.files, files, u, v, n.meta[v]); }
    }
  }

  lemma CreateKeeps(n: Node, e: Event, d: Node, names: set<Text>)
    requires Written(n) && Next(n, e, d) && e.Create? && Clean(e) && Names(e, names) && Clashfree(names)
    requires n.meta.Keys <= names
    ensures Written(d) && d.meta.Keys <= names
  {
    var u := Sanitize(e.key);
    if d != n {
      var p := CreatedPeer(n.meta, u, e.id, e.key, e.ip, e.ips, e.speed, e.secret);
      SanitizeSafe(e.key);
      SavedOnDisk(n.files, u, p);
      PutKeeps(n, d, u, p, Saved(n.files, u, p), names);
    }
  }

  lemma UpdateKeeps(n: Node, e: Event, d: Node, names: set<Text>)
    requires Written(n) && Next(n, e, d) && e.Update? && Clean(e) && Names(e, names) && Clashfree(names)
    requires n.meta.Keys <= names
    ensures Written(d) && d.meta.Keys <= names
  {
    var u := Sanitize(e.key);
    var p := UpdatedPeer(Existing(n.meta, u, e.secret), e.key, e.ip, e.ips, e.speed);
    SanitizeSafe(e.key);
    SavedOnDisk(n.files, u, p);
    PutKeeps(n, d, u, p, Saved(n.files, u, p), names);
  }

  lemma StatusKeeps(n: Node, d: Node, u: Text, p: Peer, names: set<Text>)
    requires Written(n) && Clashfree(names) && n.meta.Keys <= names
    requires u in n.meta && p == n.meta[u].(status := p.status) && Puts(n, d, u, p, WithRoutes(n.files, u, p))
    ensures Written(d) && d.meta.Keys <= names
  {
    RoutesOnDisk(n.files, u, n.meta[u], p);
    PutKeeps(n, d, u, p, WithRoutes(n.files, u, p), names);
  }

  function Removed(files: map<Text, Text>, u: Text): map<Text, Text> {
    files - {u, CnFile(u), RateFile(u)}
  }

  lemma RemovedElsewhere(files: map<Text, Text>, u: Text)
    ensures Elsewhere(files, Removed(files, u), u)
  {
  }

  lemma DropKeeps(n: Node, d: Node, u: Text, names: set<Text>)
    requires Written(n) && Clashfree(names) && n.meta.Keys <= names && u in names
    requires d.meta == n.meta - {u} && Fresh(d) && Elsewhere(n.files, d.files, u)
    ensures Written(d) && d.meta.Keys <= names
  {
    forall v | v in d.meta ensures Tidy(v, d.meta[v]) && OnDisk(d.files, v, d.meta[v]) {
      OthersOnDisk(names, n.files, d.files, u, v, n.meta[v]);
    }
  }

  lemma DeleteKeeps(n: Node, e: Event, d: Node, names: set<Text>)
    requires Written(n) && Next(n, e, d) && e.Delete? && Names(e, names) && Clashfree(names) && n.meta.Keys <= names
    ensures Written(d) && d.meta.Keys <= names
  {
    var u := Sanitize(e.key);
    RemovedElsewhere(n.files, u);
    DropKeeps(n, d, u, names);
  }

  lemma NextKeeps(n: Node, e: Event, d: Node, names: set<Text>)
    requires Written(n) && Next(n, e, d) && Clean(e) && Names(e, names) && Clashfree(names) && n.meta.Keys <= names
    ensures Written(d) && d.meta.Keys <= names
  {
    match e
    case Create(_, _, _, _, _, _) => CreateKeeps(n, e, d, names);
    case Update(_, _, _, _, _) => UpdateKeeps(n, e, d, names);
    case Delete(_) => DeleteKeeps(n, e, d, names);
    case Suspend(key) =>
      if Sanitize(key) in n.meta {
        StatusKeeps(n, d, Sanitize(key), n.meta[Sanitize(key)].(status := Suspended), names);
      }
    case Resume(key) =>
      if Sanitize(key) in n.meta { StatusKeeps(n, d, Sanitize(key), n.meta[Sanitize(key)].(status := Active), names); }
    case Restart =>
      RestartRebuilds(n);
      RestartWritten(n);
  }

  /** Over every sequence of lifecycle calls and restarts, a further restart rebuilds every active peer. */
  lemma {:induction false} RunRebuilds(ns: seq<Node>, es: seq<Event>, names: set<Text>)
    requires |ns| == |es| + 1
    requires forall i :: 0 <= i < |es| ==> Next(ns[i], es[i], ns[i + 1]) && Clean(es[i]) && Names(es[i], names)
    requires Written(ns[0]) && Clashfree(names) && ns[0].meta.Keys <= names
    ensures var n := ns[|es|];
            && Written(n) && n.meta.Keys <= names
            && (forall u :: u in Load(n.chap, n.files) <==> u in n.meta && n.meta[u].status == Active)
            && (forall u :: u in Load(n.chap, n.files) ==> Load(n.chap, n.files)[u] == Reloaded(n.meta[u]))
    decreases |es|
  {
    if es != [] {
      var k := |es| - 1;
      RunRebuilds(ns[..k + 1], es[..k], names);
      NextKeeps(ns[k], es[k], ns[k + 1], names);
    }
    RestartRebuilds(ns[|es|]);
  }

  // ----- where the round trip ends -----

  /** Words where the credential line needs them; the address may be empty. */
  ghost predicate Wordy(u: Text, p: Peer) {
    u != [] && Safe(u) && Word(p.password) && p.password != [] && Word(p.privateIp)
  }

  /** A line of words reads back exactly when the address is not empty. */
  lemma LineReadsIff(u: Text, p: Peer)
    requires Wordy(u, p)
    ensures Entry(Line(u, p)).Some? <==> p.privateIp != []
    ensures p.privateIp != [] ==> Entry(Line(u, p)) == Some([u, SERVER, p.password, p.privateIp])
    ensures '\n' !in Line(u, p)
  {
    if p.privateIp == [] { EmptyAddressLost(u, p); } else { EntryOfAddress(u, p); }
    assert Word(SERVER) && forall i :: 0 <= i < |u| ==> !Space(u[i]);
  }

  lemma EntryOfAddress(u: Text, p: Peer)
    requires Wordy(u, p) && p.privateIp != []
    ensures Entry(Line(u, p)) == Some([u, SERVER, p.password, p.privateIp])
  {
    var q := Peer([], "k", p.password, p.privateIp, [], 0, Active);
    assert Line(u, q) == Line(u, p);
    EntryOfLine(u, q);
  }

  lemma EmptyAddressLost(u: Text, p: Peer)
    requires u != [] && Safe(u) && Word(p.password) && p.password != [] && p.privateIp == []
    ensures Entry(Line(u, p)).None?
  {
    var t := u + ['\t'] + (SERVER + ['\t'] + p.password);
    var l := Line(u, p);
    assert l == t + ['\t'];
    assert SafeChar(u[0]);
    assert t[0] == u[0] && t[|t| - 1] == p.password[|p.password| - 1];
    assert l[..|t|] == t && l[0] == u[0];
    TrimEnd(t, '\t');
    ThreeFields(u, SERVER, p.password);
  }

  lemma LoadLineKeys(ls: seq<Text>, files: map<Text, Text>, u: Text, p: Peer)
    requires Wordy(u, p)
    ensures LoadLines(ls + [Line(u, p)], files).Keys ==
            LoadLines(ls, files).Keys + if p.privateIp == [] then {} else {u}
  {
    LineReadsIff(u, p);
    LoadSnoc(ls, Line(u, p), files);
  }

  /** Users of these lines that have an address. */
  ghost predicate Addressed(keys: set<Text>, meta: map<Text, Peer>, order: seq<Text>) {
    forall u :: u in keys <==> u in order && u in meta && meta[u].privateIp != []
  }

  lemma {:induction false} LoadKeys(n: Node, order: seq<Text>, ls: seq<Text>)
    requires forall u :: u in order ==> u in n.meta && Wordy(u, n.meta[u])
    requires |ls| == |order|
    requires forall i :: 0 <= i < |order| ==> order[i] in n.meta && ls[i] == Line(order[i], n.meta[order[i]])
    ensures Addressed(LoadLines([HEADER] + ls, n.files).Keys, n.meta, order)
    decreases |order|
  {
    if order == [] {
      assert [HEADER] + ls == [HEADER];
      LoadHeader(n);
    } else {
      var k := |order| - 1;
      assert order == order[..k] + [order[k]];
      LoadKeys(n, order[..k], ls[..k]);
      assert [HEADER] + ls == ([HEADER] + ls[..k]) + [ls[k]];
      LoadLineKeys([HEADER] + ls[..k], n.files, order[k], n.meta[order[k]]);
    }
  }

  lemma ReloadKeys(n: Node, order: seq<Text>)
    requires (forall u :: u in order ==> u in n.meta && Wordy(u, n.meta[u])) && n.chap == ChapText(n.meta, order)
    ensures Addressed(Load(n.chap, n.files).Keys, n.meta, order)
  {
    var ls := ChapLines(n.meta, order);
    LoadKeys(n, order, ls);
    HeaderLine();
    forall i | 0 <= i < |ls| ensures '\n' !in ls[i] {
      assert order[i] in order;
      LineReadsIff(order[i], n.meta[order[i]]);
    }
    LinesRoundTrip([HEADER] + ls);
    BlankSkipped();
    LoadSnoc([HEADER] + ls, [], n.files);
  }

  /** An update, then a restart: an active peer is still there exactly when the update gave it an address.
      UpdatePeer, unlike CreatePeer, accepts an empty one. */
  lemma UpdateSurvivesIff(n: Node, d: Node, key: Text, ip: Text, ips: seq<Text>, speed: int, secret: Text)
    requires Written(n) && Next(n, Update(key, ip, ips, speed, secret), d)
    requires key != [] && Word(ip) && Word(secret) && secret != []
    ensures var u := Sanitize(key);
            u in d.meta && (d.meta[u].status == Active ==> (u in Load(d.chap, d.files) <==> ip != []))
  {
    var u := Sanitize(key);
    SanitizeSafe(key);
    var order :| Enumerates(d.meta, order) && d.chap == ChapText(d.meta, order);
    forall v | v in d.meta ensures Wordy(v, d.meta[v]) {
      if v != u { assert Tidy(v, n.meta[v]); } else { assert u in n.meta ==> Tidy(u, n.meta[u]); }
    }
    ReloadKeys(d, order);
  }

  /** A user whose name is another's key file overwrites it: the first user's key then reads back as the
      second one's routes, so the first user's files no longer say what memory says. */
  lemma ClashLosesKey(files: map<Text, Text>, u: Text, p: Peer)
    ensures var after := Saved(files, CnFile(u), p);
            CnFile(u) in after && after[CnFile(u)] == RoutesText(p) &&
            forall q: Peer :: q.rawKey != RoutesText(p) ==> !OnDisk(after, u, q)
  {
    SuffixApart(CnFile(u), CnFile(u));
  }

  // ----- the manager -----

  lemma {:induction false} UnlinesSnoc(ls: seq<Text>, l: Text)
    ensures Unlines(ls + [l]) == Unlines(ls) + (l + ['\n'])
  {
    if ls == [] {
      assert ls + [l] == [l];
    } else {
      assert (ls + [l])[1..] == ls[1..] + [l];
      UnlinesSnoc(ls[1..], l);
    }
  }

  class SstpManager {
    var meta: map<Text, Peer>
    var chap: Text
    var files: map<Text, Text>

    ghost function View(): Node
      reads this
    {
      Node(meta, chap, files)
    }

    /** rewriteChapSecrets: suspended users are left out, so they cannot authenticate. */
    method RewriteChapSecrets()
      modifies this`chap
      ensures Fresh(View())
    {
      var order := Enumerate(set u | u in meta && meta[u].status == Active);
      assert Enumerates(meta, order);
      var b := HEADER + ['\n'];
      assert ChapLines(meta, order[..0]) == [] && [HEADER] + [] == [HEADER];
      assert Unlines([HEADER]) == HEADER + ['\n'] + Unlines([HEADER][1..]);
      for i := 0 to |order|
        invariant b == Unlines([HEADER] + ChapLines(meta, order[..i]))
      {
        var u := order[i];
        b := b + (Line(u, meta[u]) + ['\n']);
        assert [HEADER] + ChapLines(meta, order[..i + 1]) ==
            ([HEADER] + ChapLines(meta, order[..i])) + [Line(u, meta[u])];
        UnlinesSnoc([HEADER] + ChapLines(meta, order[..i]), Line(u, meta[u]));
      }
      assert order[..|order|] == order;
      chap := b;
    }

    method RoutesBody(hosts: seq<Text>) returns (b: Text)
      ensures b == Unlines(With32(hosts))
    {
      b := [];
      for i := 0 to |hosts|
        invariant b == Unlines(With32(hosts[..i]))
      {
        b := b + (hosts[i] + SLASH32 + ['\n']);
        assert With32(hosts[..i + 1]) == With32(hosts[..i]) + [hosts[i] + SLASH32];
        UnlinesSnoc(With32(hosts[..i]), hosts[i] + SLASH32);
      }
      assert hosts[..|hosts|] == hosts;
    }

    /** writeRoutesFile: a temporary file, then a rename. */
    method WriteRoutesFile(u: Text, p: Peer)
      modifies this`files
      ensures files == WithRoutes(old(files), u, p)
    {
      var b: Text := [];
      if p.status != Suspended {
        var hosts := ExpandToHost32(p.publicIps);
        b := RoutesBody(hosts);
      }
      files := files[TmpFile(u) := b];
      files := (files - {TmpFile(u)})[u := b];
      assert files == (old(files) - {TmpFile(u)})[u := b];
    }

    method WriteCnFile(u: Text, p: Peer)
      modifies this`files
      ensures files == WithCn(old(files), u, p)
    {
      if p.rawKey != [] { files := files[CnFile(u) := p.rawKey]; }
    }

    method WriteRateFile(u: Text, p: Peer)
      modifies this`files
      ensures files == WithRate(old(files), u, p)
    {
      if p.speed > 0 {
        files := files[RateFile(u) := Dec(p.speed) + ['\n']];
      } else {
        files := files - {RateFile(u)};
      }
    }

    method LoadRoutesFile(text: Text) returns (ips: seq<Text>)
      ensures ips == LoadRoutes(Split(text, '\n'))
    {
      var ls := Split(text, '\n');
      ips := [];
      for i := 0 to |ls|
        invariant ips == LoadRoutes(ls[..i])
      {
        assert ls[..i + 1][..i] == ls[..i];
        var ln := Trim(ls[i]);
        if ln != [] { ips := ips + [ln]; }
      }
      assert ls[..|ls|] == ls;
    }

    method ReadPeer(f: seq<Text>) returns (p: Peer)
      requires |f| >= 4
      ensures p == LoadPeer(files, f)
    {
      var u := f[0];
      p := Peer([], [], f[2], f[3], [], 0, Active);
      if CnFile(u) in files { p := p.(rawKey := Trim(files[CnFile(u)])); }
      if RateFile(u) in files {
        var kbit := Atoi(Trim(files[RateFile(u)]));
        if kbit.Some? { p := p.(speed := kbit.value); }
      }
      if u in files {
        var ips := LoadRoutesFile(files[u]);
        p := p.(publicIps := ips);
      }
    }

    /** loadChapSecrets, into an empty memory. */
    method LoadChapSecrets()
      modifies this`meta
      ensures meta == Load(chap, files)
    {
      var ls := Split(chap, '\n');
      meta := map[];
      for i := 0 to |ls|
        invariant meta == LoadLines(ls[..i], files)
      {
        assert ls[..i + 1][..i] == ls[..i];
        var line := Trim(ls[i]);
        if line == [] || line[0] == '#' { continue; }
        var f := Fields(line);
        if |f| < 4 { continue; }
        var p := ReadPeer(f);
        meta := meta[f[0] := p];
      }
      assert ls[..|ls|] == ls;
    }

    method Save(u: Text, p: Peer)
      requires u in meta && meta[u] == p
      modifies this`chap, this`files
      ensures files == Saved(old(files), u, p) && Fresh(View())
    {
      RewriteChapSecrets();
      WriteRoutesFile(u, p);
      WriteCnFile(u, p);
      WriteRateFile(u, p);
      assert Fresh(Node(meta, chap, old(files)));
      assert Fresh(View());
    }

    method CreatePeer(id: Text, key: Text, ip: Text, ips: seq<Text>, speed: int, secret: Text) returns (ok: bool)
      modifies this
      ensures Next(old(View()), Create(id, key, ip, ips, speed, secret), View())
      ensures ok <==> key != [] && ip != [] && (Sanitize(key) in old(meta) ==> old(meta)[Sanitize(key)].privateIp == ip)
    {
      var u := Sanitize(key);
      if u == [] || ip == [] { return false; }
      if u in meta && meta[u].privateIp != ip { return false; }
      var password := if u in meta then meta[u].password else secret;
      var p := Peer(id, key, password, ip, ips, speed, Active);
      meta := meta[u := p];
      Save(u, p);
      return true;
    }

    method UpdatePeer(key: Text, ip: Text, ips: seq<Text>, speed: int, secret: Text)
      modifies this
      ensures Next(old(View()), Update(key, ip, ips, speed, secret), View())
    {
      var u := Sanitize(key);
      var p := if u in meta then meta[u] else Peer([], [], secret, [], [], 0, Active);
      p := p.(rawKey := key, privateIp := ip, publicIps := ips);
      if speed > 0 { p := p.(speed := speed); }
      meta := meta[u := p];
      Save(u, p);
    }

    method DeletePeer(key: Text)
      modifies this
      ensures Next(old(View()), Delete(key), View())
    {
      var u := Sanitize(key);
      files := files - {u};
      files := files - {CnFile(u)};
      files := files - {RateFile(u)};
      assert files == Removed(old(files), u);
      meta := meta - {u};
      RewriteChapSecrets();
    }

    method SuspendPeer(key: Text) returns (ok: bool)
      modifies this
      ensures Next(old(View()), Suspend(key), View()) && (ok <==> Sanitize(key) in old(meta))
    {
      var u := Sanitize(key);
      if u !in meta { return false; }
      var p := meta[u].(status := Suspended);
      meta := meta[u := p];
      WriteRoutesFile(u, p);
      RewriteChapSecrets();
      return true;
    }

    method ResumePeer(key: Text) returns (ok: bool)
      modifies this
      ensures Next(old(View()), Resume(key), View()) && (ok <==> Sanitize(key) in old(meta))
    {
      var u := Sanitize(key);
      if u !in meta { return false; }
      var p := meta[u].(status := Active);
      meta := meta[u := p];
      RewriteChapSecrets();
      WriteRoutesFile(u, p);
      assert Fresh(Node(meta, chap, old(files)));
      return true;
    }
  }
}

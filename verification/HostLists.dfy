/** Address texts and expandToHost32 (gateway-agent/internal/wg/openvpn.go), which the SSTP backend uses
    to turn CIDR entries into host addresses. */
module HostLists {
  import opened Common
  import opened Arith
  import opened SstpText
  import Plans = SalePlans

  const SLASH32: Text := "/32"

  /** One byte of a dotted quad; a leading zero is refused. */
  function ReadOctet(s: Text): Option<nat> {
    match ReadNat(s)
    case None => None
    case Some(v) => if v > 255 || (|s| > 1 && s[0] == '0') then None else Some(v)
  }

  function Join(a: Option<nat>, b: Option<nat>, c: Option<nat>, d: Option<nat>): Option<nat> {
    if a.None? || b.None? || c.None? || d.None? then None
    else Some(a.value * 0x100_0000 + b.value * 0x1_0000 + c.value * 0x100 + d.value)
  }

  function ReadQuad(s: Text): Option<nat> {
    var p := Split(s, '.');
    if |p| != 4 then None else Join(ReadOctet(p[0]), ReadOctet(p[1]), ReadOctet(p[2]), ReadOctet(p[3]))
  }

  datatype Net = Net(net: nat, len: nat)

  /** The multiple of m at or below a. */
  function Floor(a: nat, m: nat): (r: nat)
    requires m > 0
    ensures r <= a
  {
    a - a % m
  }

  /** The network and the prefix length of a parsed pair. */
  function Masked(addr: Option<nat>, len: Option<nat>): Option<Net> {
    if addr.None? || len.None? || len.value > 32 then None
    else Some(Net(Floor(addr.value, Pow2(32 - len.value)), len.value))
  }

  /** net.ParseCIDR for IPv4. */
  function ReadCidr(s: Text): (r: Option<Net>)
    ensures r.Some? ==> r.value.len <= 32
  {
    var p := Split(s, '/');
    if |p| != 2 then None else Masked(ReadQuad(p[0]), ReadNat(p[1]))
  }

  function Dotted(v: nat): Text {
    Dec(v / 0x100_0000 % 256) + ['.'] +
    (Dec(v / 0x1_0000 % 256) + ['.'] + (Dec(v / 0x100 % 256) + ['.'] + Dec(v % 256)))
  }

  predicate EndsWith32(s: Text) {
    |s| >= 3 && s[|s| - 3..] == SLASH32
  }

  function Strip32(s: Text): Text {
    if EndsWith32(s) then s[..|s| - 3] else s
  }

  /** The first n addresses from `start`. */
  function Hosts(start: nat, n: nat): seq<Text>
    decreases n
  {
    if n == 0 then [] else Hosts(start, n - 1) + [Dotted(start + n - 1)]
  }

  /** An entry that is not a host: its hosts, or itself when it is unreadable or too large. */
  function Blown(c: Text, n: Option<Net>): seq<Text>
    requires n.Some? ==> n.value.len <= 32
  {
    if n.None? || Pow2(32 - n.value.len) > 256 then [c] else Hosts(n.value.net, Pow2(32 - n.value.len))
  }

  function ExpandOne(c: Text): seq<Text> {
    if '/' !in c || EndsWith32(c) then [Strip32(c)] else Blown(c, ReadCidr(c))
  }

  function Expand(cs: seq<Text>): seq<Text>
    decreases |cs|
  {
    if cs == [] then [] else Expand(cs[..|cs| - 1]) + ExpandOne(cs[|cs| - 1])
  }

  method HostsOf(start: nat, count: nat) returns (out: seq<Text>)
    ensures out == Hosts(start, count)
  {
    out := [];
    for k := 0 to count
      invariant out == Hosts(start, k)
    {
      out := out + [Dotted(start + k)];
    }
  }

  method BlowUp(c: Text, n: Option<Net>) returns (out: seq<Text>)
    requires n.Some? ==> n.value.len <= 32
    ensures out == Blown(c, n)
  {
    if n.None? { return [c]; }
    var count := Pow2(32 - n.value.len);
    if count > 256 { return [c]; }
    out := HostsOf(n.value.net, count);
  }

  /** The body of the loop for one entry. */
  method ExpandEntry(c: Text) returns (out: seq<Text>)
    ensures out == ExpandOne(c)
  {
    if '/' !in c || EndsWith32(c) { return [Strip32(c)]; }
    var n := ReadCidr(c);
    out := BlowUp(c, n);
  }

  /** expandToHost32. */
  method ExpandToHost32(cidrs: seq<Text>) returns (out: seq<Text>)
    ensures out == Expand(cidrs)
  {
    out := [];
    for i := 0 to |cidrs|
      invariant out == Expand(cidrs[..i])
    {
      assert cidrs[..i + 1][..i] == cidrs[..i];
      var hosts := ExpandEntry(cidrs[i]);
      out := out + hosts;
    }
    assert cidrs[..|cidrs|] == cidrs;
  }

  // ----- printing and reading addresses -----

  lemma {:induction false} DecLead(n: nat)
    requires n > 0
    ensures Dec(n)[0] != '0'
  {
    if n < 10 { DigitIs(n); } else { DecLead(n / 10); }
  }

  lemma OctetRoundTrip(n: nat)
    requires n < 256
    ensures ReadOctet(Dec(n)) == Some(n)
  {
    DecRoundTrip(n);
    if n > 0 { DecLead(n); }
  }

  lemma SplitQuad(a: Text, b: Text, c: Text, d: Text)
    requires '.' !in a && '.' !in b && '.' !in c && '.' !in d
    ensures Split(a + ['.'] + (b + ['.'] + (c + ['.'] + d)), '.') == [a, b, c, d]
  {
    SplitFirst(a, '.', b + ['.'] + (c + ['.'] + d));
    SplitFirst(b, '.', c + ['.'] + d);
    SplitFirst(c, '.', d);
    SplitNone(d, '.');
  }

  lemma QuadReads(a: Text, b: Text, c: Text, d: Text)
    requires '.' !in a && '.' !in b && '.' !in c && '.' !in d
    ensures ReadQuad(a + ['.'] + (b + ['.'] + (c + ['.'] + d))) ==
              Join(ReadOctet(a), ReadOctet(b), ReadOctet(c), ReadOctet(d))
  {
    SplitQuad(a, b, c, d);
  }

  lemma OctetText(n: nat)
    requires n < 256
    ensures ReadOctet(Dec(n)) == Some(n) && '.' !in Dec(n)
  {
    OctetRoundTrip(n);
    DecRoundTrip(n);
  }

  /** A printed address reads back as itself. */
  lemma DottedRoundTrip(v: nat)
    requires v < Plans.TWO32
    ensures ReadQuad(Dotted(v)) == Some(v)
  {
    var a, b, c, d := v / 0x100_0000 % 256, v / 0x1_0000 % 256, v / 0x100 % 256, v % 256;
    OctetText(a);
    OctetText(b);
    OctetText(c);
    OctetText(d);
    QuadReads(Dec(a), Dec(b), Dec(c), Dec(d));
    Plans.BytesOf(v);
  }

  lemma DottedWord(v: nat)
    ensures Word(Dotted(v)) && '/' !in Dotted(v)
  {
    DecRoundTrip(v / 0x100_0000 % 256);
    DecRoundTrip(v / 0x1_0000 % 256);
    DecRoundTrip(v / 0x100 % 256);
    DecRoundTrip(v % 256);
  }

  // ----- expansion survives being written out and read back -----

  function With32(xs: seq<Text>): (ys: seq<Text>)
    ensures |ys| == |xs| && forall i :: 0 <= i < |xs| ==> ys[i] == xs[i] + SLASH32
  {
    seq(|xs|, i requires 0 <= i < |xs| => xs[i] + SLASH32)
  }

  lemma ExpandWith32(x: Text)
    ensures ExpandOne(x + SLASH32) == [x]
  {
    var s := x + SLASH32;
    assert s[|s| - 3..] == SLASH32 && s[..|s| - 3] == x;
  }

  lemma ExpandSnoc(cs: seq<Text>, c: Text, hs: seq<Text>)
    requires ExpandOne(c) == hs
    ensures Expand(cs + [c]) == Expand(cs) + hs
  {
    assert (cs + [c])[..|cs|] == cs;
  }

  lemma ExpandSnoc32(cs: seq<Text>, x: Text)
    ensures Expand(cs + [x + SLASH32]) == Expand(cs) + [x]
  {
    ExpandWith32(x);
    ExpandSnoc(cs, x + SLASH32, [x]);
  }

  /** Whatever list was expanded, writing the result as /32 entries and expanding again changes nothing. */
  lemma {:induction false} ExpandAgain(xs: seq<Text>)
    ensures Expand(With32(xs)) == xs
    decreases |xs|
  {
    if xs == [] {
      assert With32(xs) == [];
    } else {
      var n := |xs| - 1;
      assert With32(xs) == With32(xs[..n]) + [xs[n] + SLASH32];
      ExpandAgain(xs[..n]);
      ExpandSnoc32(With32(xs[..n]), xs[n]);
    }
  }

  lemma {:induction false} HostsWords(start: nat, n: nat)
    ensures forall x :: x in Hosts(start, n) ==> Word(x)
    decreases n
  {
    if n > 0 {
      HostsWords(start, n - 1);
      DottedWord(start + n - 1);
    }
  }

  lemma StripWord(c: Text)
    requires Word(c)
    ensures Word(Strip32(c))
  {
  }

  lemma BlownWords(c: Text, n: Option<Net>)
    requires Word(c) && (n.Some? ==> n.value.len <= 32)
    ensures forall x :: x in Blown(c, n) ==> Word(x)
  {
    if n.Some? { HostsWords(n.value.net, Pow2(32 - n.value.len)); }
  }

  lemma ExpandOneWords(c: Text)
    requires Word(c)
    ensures forall x :: x in ExpandOne(c) ==> Word(x)
  {
    StripWord(c);
    BlownWords(c, ReadCidr(c));
  }

  /** Entries without white space expand to entries without white space. */
  lemma {:induction false} ExpandWords(cs: seq<Text>)
    requires forall c :: c in cs ==> Word(c)
    ensures forall x :: x in Expand(cs) ==> Word(x)
    decreases |cs|
  {
    if cs != [] {
      var n := |cs| - 1;
      ExpandWords(cs[..n]);
      ExpandOneWords(cs[n]);
    }
  }

  // ----- expansion preserves the set of addresses -----

  /** The addresses of one entry. */
  ghost function AddressesOf(c: Text): set<nat> {
    if '/' in c then
      match ReadCidr(c)
      case None => {}
      case Some(n) => Interval(n.net, Pow2(32 - n.len))
    else
      match ReadQuad(c)
      case None => {}
      case Some(a) => {a}
  }

  /** Some entry of the list has this address. */
  ghost predicate Lists(cs: seq<Text>, a: nat) {
    exists i :: 0 <= i < |cs| && a in AddressesOf(cs[i])
  }

  /** An IPv4 entry of at most 256 addresses. */
  predicate Small(c: Text) {
    if '/' in c then ReadCidr(c).Some? && Pow2(32 - ReadCidr(c).value.len) <= 256 else ReadQuad(c).Some?
  }

  /** A readable address, not a network. */
  predicate IsHost(x: Text) {
    '/' !in x && ReadQuad(x).Some?
  }

  predicate AllHosts(xs: seq<Text>) {
    forall i :: 0 <= i < |xs| ==> IsHost(xs[i])
  }

  lemma {:induction false} SplitJoin(x: Text, c: char, y: Text)
    ensures |Split(x + [c] + y, c)| == |Split(x, c)| + |Split(y, c)|
  {
    var s := x + [c] + y;
    if x == [] {
      assert s[1..] == y;
    } else {
      assert s[1..] == x[1..] + [c] + y;
      SplitJoin(x[1..], c, y);
    }
  }

  lemma {:induction false} SplitMore(x: Text, c: char)
    requires c in x
    ensures |Split(x, c)| >= 2
  {
    if x[0] != c { SplitMore(x[1..], c); }
  }

  /** A readable entry that ends in /32 is its own single host. */
  lemma HostEntry(c: Text)
    requires EndsWith32(c) && ReadCidr(c).Some?
    ensures var q := Strip32(c);
            '/' !in q && ReadQuad(q) == Some(ReadCidr(c).value.net) && ReadCidr(c).value.len == 32
  {
    var q := c[..|c| - 3];
    var rest: Text := ['3', '2'];
    assert c == q + SLASH32 && SLASH32 == ['/'] + rest;
    assert c == q + ['/'] + rest;
    SplitJoin(q, '/', rest);
    SplitNone(rest, '/');
    if '/' in q { SplitMore(q, '/'); assert false; }
    SplitFirst(q, '/', rest);
    assert rest[..1] == ['3'] && ['3'][..0] == [];
    assert ReadDigits(['3']) == Some(3);
    assert ReadNat(rest) == Some(32);
  }

  /** The host of exactly this address. */
  ghost predicate HostOf(x: Text, a: nat) {
    IsHost(x) && AddressesOf(x) == {a}
  }

  lemma DottedHostOf(v: nat)
    requires v < Plans.TWO32
    ensures HostOf(Dotted(v), v)
  {
    DottedRoundTrip(v);
    DottedWord(v);
  }

  /** A list whose i-th entry is the host start + i. */
  ghost predicate Consecutive(hs: seq<Text>, start: nat, n: nat) {
    |hs| == n && forall i :: 0 <= i < n ==> HostOf(hs[i], start + i)
  }

  lemma {:induction false} HostsCount(start: nat, n: nat)
    ensures |Hosts(start, n)| == n
    decreases n
  {
    if n > 0 { HostsCount(start, n - 1); }
  }

  lemma {:induction false} HostAt(start: nat, n: nat, i: nat)
    requires i < n && start + n <= Plans.TWO32
    ensures i < |Hosts(start, n)| && HostOf(Hosts(start, n)[i], start + i)
    decreases n
  {
    HostsCount(start, n - 1);
    if i < n - 1 {
      HostAt(start, n - 1, i);
    } else {
      DottedHostOf(start + i);
    }
  }

  lemma HostsConsecutive(start: nat, n: nat)
    requires start + n <= Plans.TWO32
    ensures Consecutive(Hosts(start, n), start, n)
  {
    HostsCount(start, n);
    forall i | 0 <= i < n ensures HostOf(Hosts(start, n)[i], start + i) { HostAt(start, n, i); }
  }

  lemma ConsecutiveMeans(hs: seq<Text>, start: nat, n: nat, a: nat)
    requires Consecutive(hs, start, n)
    ensures AllHosts(hs) && (Lists(hs, a) <==> a in Interval(start, n))
  {
    if a in Interval(start, n) {
      assert HostOf(hs[a - start], start + (a - start));
    }
  }

  /** A network below 2^32 ends at or below it. */
  lemma CidrFits(c: Text)
    requires ReadCidr(c).Some?
    ensures ReadCidr(c).value.net + Pow2(32 - ReadCidr(c).value.len) <= Plans.TWO32
  {
    var p := Split(c, '/');
    var a, len := ReadQuad(p[0]).value, ReadNat(p[1]).value;
    QuadBelow(p[0]);
    var m := Pow2(32 - len);
    FloorMultiple(a, m);
    Plans.AlignedFits(Floor(a, m), 32 - len, m);
  }

  lemma QuadBelow(s: Text)
    requires ReadQuad(s).Some?
    ensures ReadQuad(s).value < Plans.TWO32
  {
    var p := Split(s, '.');
    assert forall i :: 0 <= i < 4 ==> ReadOctet(p[i]).Some? && ReadOctet(p[i]).value < 256;
  }

  lemma SingleMeans(x: Text, a: nat)
    ensures Lists([x], a) <==> a in AddressesOf(x)
  {
    assert [x][0] == x;
  }

  lemma SlashInSuffix(s: Text)
    ensures EndsWith32(s) ==> '/' in s
  {
    if EndsWith32(s) { assert s[|s| - 3] == SLASH32[0]; }
  }

  lemma PlainMeans(c: Text, a: nat)
    requires Small(c) && '/' !in c
    ensures AllHosts(ExpandOne(c)) && (Lists(ExpandOne(c), a) <==> a in AddressesOf(c))
  {
    SlashInSuffix(c);
    SingleMeans(c, a);
  }

  lemma HostEntryMeans(c: Text, a: nat)
    requires Small(c) && EndsWith32(c) && '/' in c
    ensures AllHosts(ExpandOne(c)) && (Lists(ExpandOne(c), a) <==> a in AddressesOf(c))
  {
    HostEntry(c);
    SingleMeans(Strip32(c), a);
    assert Pow2(0) == 1;
  }

  lemma BlownMeans(c: Text, n: Net, m: nat, a: nat)
    requires n.len <= 32 && m == Pow2(32 - n.len) && n.net + m <= Plans.TWO32 && m <= 256
    ensures AllHosts(Blown(c, Some(n))) && (Lists(Blown(c, Some(n)), a) <==> a in Interval(n.net, m))
  {
    var hs := Blown(c, Some(n));
    HostsConsecutive(n.net, m);
    ConsecutiveMeans(hs, n.net, m, a);
  }

  lemma BlockMeans(c: Text, a: nat)
    requires Small(c) && !EndsWith32(c) && '/' in c
    ensures AllHosts(ExpandOne(c)) && (Lists(ExpandOne(c), a) <==> a in AddressesOf(c))
  {
    CidrFits(c);
    BlownMeans(c, ReadCidr(c).value, Pow2(32 - ReadCidr(c).value.len), a);
  }

  lemma ExpandOneMeans(c: Text, a: nat)
    requires Small(c)
    ensures AllHosts(ExpandOne(c)) && (Lists(ExpandOne(c), a) <==> a in AddressesOf(c))
  {
    if '/' !in c { PlainMeans(c, a); } else if EndsWith32(c) { HostEntryMeans(c, a); } else { BlockMeans(c, a); }
  }

  lemma ListsConcat(xs: seq<Text>, ys: seq<Text>, a: nat)
    ensures Lists(xs + ys, a) <==> Lists(xs, a) || Lists(ys, a)
  {
    var zs := xs + ys;
    assert forall i :: 0 <= i < |xs| ==> zs[i] == xs[i];
    assert forall i :: 0 <= i < |ys| ==> zs[|xs| + i] == ys[i];
    if Lists(zs, a) {
      var i :| 0 <= i < |zs| && a in AddressesOf(zs[i]);
      assert i >= |xs| ==> zs[i] == ys[i - |xs|];
    }
  }

  /** Expansion preserves the set of addresses and leaves only hosts. */
  lemma {:induction false} ExpandMeans(cs: seq<Text>, a: nat)
    requires forall c :: c in cs ==> Small(c)
    ensures AllHosts(Expand(cs)) && (Lists(Expand(cs), a) <==> Lists(cs, a))
    decreases |cs|
  {
    if cs != [] {
      var n := |cs| - 1;
      ExpandMeans(cs[..n], a);
      ExpandOneMeans(cs[n], a);
      ListsConcat(Expand(cs[..n]), ExpandOne(cs[n]), a);
      assert cs == cs[..n] + [cs[n]];
      ListsConcat(cs[..n], [cs[n]], a);
      SingleMeans(cs[n], a);
    }
  }
}

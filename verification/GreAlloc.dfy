/** The GRE point-to-point allocator (packages/provisioning/src/gre.ts) and the places that derive the
    pair again from the stored gateway end. */
module GreAlloc {
  import opened Common
  import opened Arith
  import opened SalePlans

  const GRE_KEY_MIN := 1000

  // ----- address arithmetic -----

  /** Bitwise or. */
  function BitOr(x: nat, y: nat): nat {
    if x == 0 then y else if y == 0 then x else
    2 * BitOr(x / 2, y / 2) + if x % 2 == 1 || y % 2 == 1 then 1 else 0
  }

  /** JavaScript's | on two numbers. */
  function Or32(x: int, y: int): int {
    ToInt32(BitOr(ToUint32(x), ToUint32(y)))
  }

  /** (o0 << 24) | (o1 << 16) | (o2 << 8) | o3: a signed number. */
  function SignedInt(o0: nat, o1: nat, o2: nat, o3: nat): int {
    Or32(Or32(Or32(Shl(o0, 24), Shl(o1, 16)), Shl(o2, 8)), o3)
  }

  function Number(o0: nat, o1: nat, o2: nat, o3: nat): nat {
    o0 * 0x100_0000 + o1 * 0x1_0000 + o2 * 0x100 + o3
  }

  /** intToIp: the unsigned shifts read a negative number modulo 2^32. */
  function IntToIp(n: int): seq<nat> {
    IntToIp4(ToUint32(n))
  }

  lemma HalfMultiple(x: nat, m: nat, y: nat)
    requires m > 0
    ensures (x * (2 * m) + y) / 2 == x * m + y / 2 && (x * (2 * m) + y) % 2 == y % 2
  {
    ModUnique(x * (2 * m) + y, 2, x * m + y / 2, y % 2) by { assert x * (2 * m) == x * m * 2; }
  }

  /** Low bits fill the zeros that a shift leaves. */
  lemma {:induction false} OrFills(x: nat, k: nat, y: nat)
    requires y < Pow2(k)
    ensures BitOr(x * Pow2(k), y) == x * Pow2(k) + y
  {
    if k > 0 && x > 0 && y > 0 {
      var m := Pow2(k - 1);
      HalfMultiple(x, m, 0);
      OrFills(x, k - 1, y / 2);
    }
  }

  lemma Unsigned(v: nat)
    requires v < TWO32
    ensures ToUint32(ToInt32(v)) == v && ToUint32(v) == v
  {
  }

  lemma ShlByte(o: nat, k: nat, m: nat)
    requires o < 256 && k <= 24 && m == Pow2(k) && m <= 0x100_0000
    ensures ToUint32(Shl(o, k)) == o * m
  {
    ToInt32Small(o);
    assert 0 <= o * m <= 255 * 0x100_0000;
    Unsigned(o * m);
  }

  /** Oring a field into the zeros below another. */
  lemma OrField(x: int, y: int, hi: nat, lo: nat, k: nat, m: nat)
    requires ToUint32(x) == hi * m && ToUint32(y) == lo && m == Pow2(k) && lo < m && hi * m + lo < TWO32
    ensures ToUint32(Or32(x, y)) == hi * m + lo
  {
    OrFills(hi, k, lo);
    Unsigned(hi * m + lo);
  }

  lemma TopHalf(o0: nat, o1: nat)
    requires o0 < 256 && o1 < 256
    ensures ToUint32(Or32(Shl(o0, 24), Shl(o1, 16))) == (o0 * 0x100 + o1) * 0x1_0000
  {
    PowersOfTwo();
    ShlByte(o0, 24, 0x100_0000);
    ShlByte(o1, 16, 0x1_0000);
    OrField(Shl(o0, 24), Shl(o1, 16), o0, o1 * 0x1_0000, 24, 0x100_0000);
  }

  lemma ThirdByte(top: int, hi: nat, o2: nat)
    requires hi < 0x1_0000 && ToUint32(top) == hi * 0x1_0000 && o2 < 256
    ensures ToUint32(Or32(top, Shl(o2, 8))) == (hi * 0x100 + o2) * 0x100
  {
    PowersOfTwo();
    ShlByte(o2, 8, 0x100);
    OrField(top, Shl(o2, 8), hi, o2 * 0x100, 16, 0x1_0000);
  }

  lemma LastByte(top: int, hi: nat, o3: nat)
    requires hi < 0x100_0000 && ToUint32(top) == hi * 0x100 && o3 < 256
    ensures ToUint32(Or32(top, o3)) == hi * 0x100 + o3
  {
    PowersOfTwo();
    OrField(top, o3, hi, o3, 8, 0x100);
  }

  /** Up to its sign the number is the address. */
  lemma SignedIntIs(o0: nat, o1: nat, o2: nat, o3: nat)
    requires o0 < 256 && o1 < 256 && o2 < 256 && o3 < 256
    ensures ToUint32(SignedInt(o0, o1, o2, o3)) == Number(o0, o1, o2, o3)
  {
    var top := Or32(Shl(o0, 24), Shl(o1, 16));
    TopHalf(o0, o1);
    ThirdByte(top, o0 * 0x100 + o1, o2);
    LastByte(Or32(top, Shl(o2, 8)), (o0 * 0x100 + o1) * 0x100 + o2, o3);
  }

  // ----- the search -----

  datatype P2p = P2p(gwEnd: seq<nat>, custEnd: seq<nat>, net: seq<nat>)

  datatype Refusal = TooSmall | NoGatewayAvailable

  datatype Result = Ok(p2p: P2p) | Err(error: Refusal)

  /** The k-th /30 of a subnet. */
  function Nth(base: nat, k: nat): P2p {
    P2p(IntToIp4(base + 4 * k + 1), IntToIp4(base + 4 * k + 2), IntToIp4(base + 4 * k))
  }

  /** How many /30s the search visits: all of them, except in a /0 or /1, where the shifted size is
      not positive enough for even one. */
  function Slots(mask: nat): nat
    requires mask <= 30
  {
    if mask < 2 then 0 else Pow2(30 - mask)
  }

  /** What the cidr column holds: a network address. */
  ghost predicate Subnet(base: nat, mask: nat) {
    mask <= 32 && base < TWO32 && base % Pow2(32 - mask) == 0
  }

  /** The first slot whose gateway end is not in use. */
  function FirstFree(base: nat, n: nat, used: set<nat>, k: nat): (r: Option<nat>)
    requires k <= n
    ensures r.Some? ==> k <= r.value < n && base + 4 * r.value + 1 !in used
    ensures forall j: nat {:trigger SlotEnd(base, j)} ::
              k <= j < (if r.Some? then r.value else n) ==> SlotEnd(base, j) in used
    decreases n - k
  {
    if k == n then None else
    if SlotEnd(base, k) !in used then Some(k) else FirstFree(base, n, used, k + 1)
  }

  function SlotEnd(base: nat, k: nat): nat {
    base + 4 * k + 1
  }

  lemma SizeIs(mask: nat)
    requires mask <= 30
    ensures var size := Shl(1, 32 - mask);
            if mask < 2 then size <= 1 else size == 4 * Slots(mask)
  {
    if mask == 0 {
      ShiftOne(0);
      assert Shl(1, 32) == Shl(1, 0) by { assert 32 % 32 == 0 % 32; }
    } else {
      ShiftOne(32 - mask);
    }
  }

  lemma SubnetFits(base: nat, mask: nat)
    requires Subnet(base, mask) && 2 <= mask <= 30
    ensures base + 4 * Slots(mask) <= TWO32 && base % 4 == 0
  {
    PowersOfTwo();
    AlignedFits(base, 32 - mask, Pow2(32 - mask));
    assert Pow2(32 - mask) == 4 * Slots(mask);
    MultipleOfFour(base, Slots(mask));
  }

  lemma MultipleOfFour(base: nat, s: nat)
    requires s > 0 && base % (4 * s) == 0
    ensures base % 4 == 0
  {
    var q := base / (4 * s);
    assert base == 4 * (q * s) by { assert base == q * (4 * s); }
  }

  /** Addresses as numbers against addresses as text. */
  ghost predicate SameUse(used: set<nat>, texts: set<seq<nat>>) {
    forall a :: 0 <= a < TWO32 ==> (a in used <==> IntToIp4(a) in texts)
  }

  lemma ReadsAs(baseInt: int, base: nat, d: nat)
    requires ToUint32(baseInt) == base && base + d < TWO32
    ensures IntToIp(baseInt + d) == IntToIp4(base + d)
  {
    assert (baseInt + d) % TWO32 == base + d by {
      ModUnique(baseInt + d, TWO32, baseInt / TWO32, base + d);
    }
  }

  /** What one turn of the loop tests, and what it returns. */
  lemma TurnTests(baseInt: int, base: nat, k: nat, used: set<nat>, texts: set<seq<nat>>)
    requires ToUint32(baseInt) == base && base + 4 * k + 4 <= TWO32 && SameUse(used, texts)
    ensures IntToIp(baseInt + 4 * k + 1) in texts <==> SlotEnd(base, k) in used
  {
    ReadsAs(baseInt, base, 4 * k + 1);
    assert IntToIp4(SlotEnd(base, k)) in texts <==> SlotEnd(base, k) in used;
  }

  lemma TurnReturns(baseInt: int, base: nat, k: nat)
    requires ToUint32(baseInt) == base && base + 4 * k + 4 <= TWO32
    ensures P2p(IntToIp(baseInt + 4 * k + 1), IntToIp(baseInt + 4 * k + 2), IntToIp(baseInt + 4 * k)) == Nth(base, k)
  {
    ReadsAs(baseInt, base, 4 * k);
    ReadsAs(baseInt, base, 4 * k + 1);
    ReadsAs(baseInt, base, 4 * k + 2);
  }

  /** The used slots as the loop sees them and as the numbers they stand for. */
  ghost predicate Agrees(baseInt: int, base: nat, n: nat, show: int -> seq<nat>, used: set<nat>, texts: set<seq<nat>>) {
    forall k: nat {:trigger SlotEnd(base, k)} :: k < n ==>
      (show(baseInt + 4 * k + 1) in texts <==> SlotEnd(base, k) in used)
  }

  lemma SlotsAgree(base: nat, n: nat, baseInt: int, show: int -> seq<nat>, used: set<nat>, texts: set<seq<nat>>)
    requires (n > 0 ==> base + 4 * n <= TWO32) && ToUint32(baseInt) == base && SameUse(used, texts)
    requires forall i :: show(i) == IntToIp(i)
    ensures Agrees(baseInt, base, n, show, used, texts)
  {
    forall k: nat | k < n ensures show(baseInt + 4 * k + 1) in texts <==> SlotEnd(base, k) in used {
      TurnTests(baseInt, base, k, used, texts);
    }
  }

  /** The loop of allocateNextP2p; `show` prints an address. */
  method Search(baseInt: int, size: int, texts: set<seq<nat>>, show: int -> seq<nat>, ghost base: nat, ghost n: nat,
                ghost used: set<nat>)
    returns (r: Result)
    requires if n == 0 then size <= 1 else size == 4 * n
    requires Agrees(baseInt, base, n, show, used, texts)
    ensures match FirstFree(base, n, used, 0)
            case Some(k) => r == Ok(P2p(show(baseInt + 4 * k + 1), show(baseInt + 4 * k + 2), show(baseInt + 4 * k)))
            case None => r == Err(NoGatewayAvailable)
  {
    var off := 0;
    ghost var k: nat := 0;
    while off + 3 < size
      invariant off == 4 * k && k <= n
      invariant FirstFree(base, n, used, 0) == FirstFree(base, n, used, k)
      decreases size - off
    {
      var gwEndInt := baseInt + off + 1;
      var gwEnd := show(gwEndInt);
      if gwEnd !in texts {
        return Ok(P2p(gwEnd, show(gwEndInt + 1), show(baseInt + off)));
      }
      off := off + 4;
      k := k + 1;
    }
    return Err(NoGatewayAvailable);
  }

  /** What the search returns, as text and as the slot it stands for. */
  lemma FoundIs(r: Result, found: Option<nat>, baseInt: int, base: nat, n: nat, show: int -> seq<nat>)
    requires ToUint32(baseInt) == base && (n > 0 ==> base + 4 * n <= TWO32) && (found.Some? ==> found.value < n)
    requires forall i :: show(i) == IntToIp(i)
    requires match found
             case Some(k) => r == Ok(P2p(show(baseInt + 4 * k + 1), show(baseInt + 4 * k + 2), show(baseInt + 4 * k)))
             case None => r == Err(NoGatewayAvailable)
    ensures match found
            case Some(k) => r == Ok(Nth(base, k))
            case None => r == Err(NoGatewayAvailable)
  {
    if found.Some? { TurnReturns(baseInt, base, found.value); }
  }

  /** The search on numbers that stand for the subnet's addresses. */
  method SearchSubnet(baseInt: int, size: int, texts: set<seq<nat>>, show: int -> seq<nat>, ghost base: nat,
                      ghost n: nat, ghost used: set<nat>)
    returns (r: Result)
    requires if n == 0 then size <= 1 else size == 4 * n && base + 4 * n <= TWO32
    requires ToUint32(baseInt) == base && Agrees(baseInt, base, n, show, used, texts)
    requires forall i :: show(i) == IntToIp(i)
    ensures match FirstFree(base, n, used, 0)
            case Some(k) => r == Ok(Nth(base, k))
            case None => r == Err(NoGatewayAvailable)
  {
    r := Search(baseInt, size, texts, show, base, n, used);
    FoundIs(r, FirstFree(base, n, used, 0), baseInt, base, n, show);
  }

  /** The subnet's base as the shifts compute it. */
  method ReadBase(o0: nat, o1: nat, o2: nat, o3: nat) returns (n: int)
    requires o0 < 256 && o1 < 256 && o2 < 256 && o3 < 256
    ensures ToUint32(n) == Number(o0, o1, o2, o3)
  {
    SignedIntIs(o0, o1, o2, o3);
    return SignedInt(o0, o1, o2, o3);
  }

  /** The subnet's size as the shift computes it. */
  method ReadSize(mask: nat, ghost base: nat) returns (size: int)
    requires mask <= 30 && Subnet(base, mask)
    ensures var n := Slots(mask);
            if n == 0 then size <= 1 else size == 4 * n && base + 4 * n <= TWO32
  {
    SizeIs(mask);
    if mask >= 2 { SubnetFits(base, mask); }
    return Shl(1, 32 - mask);
  }

  /** The k-th /30 lies in a subnet of 2^(32 - mask) addresses. */
  ghost predicate SlotFits(mask: nat, k: nat) {
    2 <= mask <= 30 && 4 * k + 4 <= Pow2(32 - mask)
  }

  /** The k-th /30 is the first one whose gateway end is not in use. */
  ghost predicate FirstSlot(base: nat, mask: nat, used: set<nat>, k: nat) {
    && SlotFits(mask, k) && base + 4 * k + 1 !in used
    && forall j: nat {:trigger SlotEnd(base, j)} :: j < k ==> base + 4 * j + 1 in used
  }

  ghost predicate NoSlot(base: nat, mask: nat, used: set<nat>) {
    forall j: nat :: SlotFits(mask, j) ==> base + 4 * j + 1 in used
  }

  lemma SlotsFit(mask: nat, k: nat)
    requires mask <= 30
    ensures k < Slots(mask) <==> SlotFits(mask, k)
  {
    if mask >= 2 { assert Pow2(32 - mask) == 2 * Pow2(31 - mask) && Pow2(31 - mask) == 2 * Pow2(30 - mask); }
  }

  lemma FoundSlot(base: nat, mask: nat, used: set<nat>)
    requires mask <= 30
    ensures match FirstFree(base, Slots(mask), used, 0)
            case Some(k) => FirstSlot(base, mask, used, k)
            case None => NoSlot(base, mask, used)
  {
    var r := FirstFree(base, Slots(mask), used, 0);
    if r.Some? {
      SlotsFit(mask, r.value);
      forall j: nat | j < r.value ensures base + 4 * j + 1 in used { assert SlotEnd(base, j) in used; }
    } else {
      forall j: nat | SlotFits(mask, j) ensures base + 4 * j + 1 in used {
        SlotsFit(mask, j);
        assert SlotEnd(base, j) in used;
      }
    }
  }

  /** What was allocated, read back as numbers: the gateway end, the customer end and the network of slot k. */
  ghost predicate SlotIs(p: P2p, base: nat, k: nat) {
    Ip4ToInt(p.gwEnd) == base + 4 * k + 1 && Ip4ToInt(p.custEnd) == base + 4 * k + 2 && Ip4ToInt(p.net) == base + 4 * k
  }

  lemma NthIs(base: nat, k: nat)
    requires base + 4 * k + 4 <= TWO32
    ensures SlotIs(Nth(base, k), base, k)
  {
    Ip4RoundTrip(base + 4 * k);
    Ip4RoundTrip(base + 4 * k + 1);
    Ip4RoundTrip(base + 4 * k + 2);
  }

  lemma NthOf(base: nat, mask: nat, k: nat)
    requires Subnet(base, mask) && mask <= 30 && k < Slots(mask)
    ensures SlotIs(Nth(base, k), base, k)
  {
    SubnetFits(base, mask);
    NthIs(base, k);
  }

  /** The outcome of the search, without its own bookkeeping. */
  ghost predicate Allocates(r: Result, base: nat, mask: nat, used: set<nat>) {
    match r
    case Ok(p) => exists k: nat :: FirstSlot(base, mask, used, k) && SlotIs(p, base, k)
    case Err(e) => if e == TooSmall then mask > 30 else mask <= 30 && NoSlot(base, mask, used)
  }

  lemma AllocatesIs(r: Result, base: nat, mask: nat, used: set<nat>)
    requires Subnet(base, mask) && mask <= 30
    requires match FirstFree(base, Slots(mask), used, 0)
             case Some(k) => r == Ok(Nth(base, k))
             case None => r == Err(NoGatewayAvailable)
    ensures Allocates(r, base, mask, used)
  {
    FoundSlot(base, mask, used);
    var found := FirstFree(base, Slots(mask), used, 0);
    if found.Some? { NthOf(base, mask, found.value); }
  }

  /** allocateNextP2p, on the octets and prefix length of the subnet: the first /30 whose gateway end is not in
      use, an error for a subnet too small to hold one, and exhaustion only when the gateway end of every /30 is
      in use. */
  method AllocateNextP2p(o0: nat, o1: nat, o2: nat, o3: nat, mask: nat, texts: set<seq<nat>>, ghost base: nat,
                         ghost used: set<nat>)
    returns (r: Result)
    requires o0 < 256 && o1 < 256 && o2 < 256 && o3 < 256 && base == Number(o0, o1, o2, o3)
    requires Subnet(base, mask) && SameUse(used, texts)
    ensures Allocates(r, base, mask, used)
  {
    if mask > 30 { return Err(TooSmall); }
    var baseInt := ReadBase(o0, o1, o2, o3);
    var size := ReadSize(mask, base);
    var show := i => IntToIp(i);
    SlotsAgree(base, Slots(mask), baseInt, show, used, texts);
    r := SearchSubnet(baseInt, size, texts, show, base, Slots(mask), used);
    AllocatesIs(r, base, mask, used);
  }

  // ----- deriving the pair again -----

  /** ipToInt of gre.ts and gre-monitor.ts. */
  function IpToInt(o: seq<nat>): int
    requires |o| == 4
  {
    ToUint32(SignedInt(o[0], o[1], o[2], o[3]))
  }

  lemma IpToIntPrints(n: nat)
    requires n < TWO32
    ensures IpToInt(IntToIp4(n)) == n
  {
    BytesOf(n);
    SignedIntIs(n / 0x100_0000 % 256, n / 0x1_0000 % 256, n / 0x100 % 256, n % 256);
  }

  /** What activation and the monitor compute from the stored gateway end. */
  function Rederive(gwEnd: seq<nat>): P2p
    requires |gwEnd| == 4
  {
    P2p(gwEnd, IntToIp(IpToInt(gwEnd) + 1), IntToIp(IpToInt(gwEnd) - 1))
  }

  /** Both derivations print the neighbours of the stored address. */
  lemma RederiveNeighbours(n: nat)
    requires 1 <= n < TWO32 - 1
    ensures Rederive(IntToIp4(n)) == P2p(IntToIp4(n), IntToIp4(n + 1), IntToIp4(n - 1))
  {
    IpToIntPrints(n);
    Unsigned(n + 1);
    Unsigned(n - 1);
  }

  lemma RederivedIsAllocated(base: nat, k: nat)
    requires base + 4 * k + 4 <= TWO32
    ensures Rederive(Nth(base, k).gwEnd) == Nth(base, k)
  {
    RederiveNeighbours(base + 4 * k + 1);
  }

  // ----- runs of a gateway that carries GRE tunnels only -----

  datatype Tun = Tun(end: nat, key: nat, deleted: bool)

  /** The gateway's tunnel rows in creation order; a deleted tunnel keeps its row. */
  datatype Gateway = Gateway(base: nat, mask: nat, rows: seq<Tun>)

  function Ends(rows: seq<Tun>): set<nat> {
    set i | 0 <= i < |rows| :: rows[i].end
  }

  function MaxKey(rows: seq<Tun>): nat
    decreases |rows|
  {
    if rows == [] then GRE_KEY_MIN - 1 else
    var m, k := MaxKey(rows[..|rows| - 1]), rows[|rows| - 1].key;
    if k > m then k else m
  }

  /** provisionGreTunnel's choice of address and key. */
  function Provision(g: Gateway): Option<Gateway> {
    if g.mask > 30 then None else
    match FirstFree(g.base, Slots(g.mask), Ends(g.rows), 0)
    case None => None
    case Some(k) => Some(g.(rows := g.rows + [Tun(SlotEnd(g.base, k), MaxKey(g.rows) + 1, false)]))
  }

  /** Deletion is soft. */
  function Delete(g: Gateway, i: nat): Gateway {
    if i < |g.rows| then g.(rows := g.rows[i := g.rows[i].(deleted := true)]) else g
  }

  datatype Event = DoProvision | DoDelete(i: nat)

  function Step(g: Gateway, e: Event): Gateway {
    match e
    case DoProvision => if Provision(g).Some? then Provision(g).value else g
    case DoDelete(i) => Delete(g, i)
  }

  function Run(g: Gateway, es: seq<Event>): Gateway
    decreases |es|
  {
    if es == [] then g else Step(Run(g, es[..|es| - 1]), es[|es| - 1])
  }

  /** The i-th row holds slot ks[i], and keys count up from the minimum. */
  ghost predicate LaidAt(g: Gateway, ks: seq<nat>) {
    && g.mask <= 30 && |ks| == |g.rows| && Distinct(ks)
    && (forall i :: 0 <= i < |ks| ==> ks[i] < Slots(g.mask) && g.rows[i].end == SlotEnd(g.base, ks[i]))
    && (forall i :: 0 <= i < |g.rows| ==> g.rows[i].key == GRE_KEY_MIN + i)
  }

  /** Every row holds a slot of its own. */
  ghost predicate Laid(g: Gateway) {
    exists ks :: LaidAt(g, ks)
  }

  lemma {:induction false} MaxKeyIs(rows: seq<Tun>)
    requires forall i :: 0 <= i < |rows| ==> rows[i].key == GRE_KEY_MIN + i
    ensures MaxKey(rows) == GRE_KEY_MIN - 1 + |rows|
    decreases |rows|
  {
    if rows != [] { MaxKeyIs(rows[..|rows| - 1]); }
  }

  lemma EndsIff(g: Gateway, ks: seq<nat>, k: nat)
    requires LaidAt(g, ks)
    ensures SlotEnd(g.base, k) in Ends(g.rows) <==> k in ks
  {
    if k in ks {
      var i :| 0 <= i < |ks| && ks[i] == k;
      assert g.rows[i].end == SlotEnd(g.base, k);
    }
  }

  lemma ProvisionLaid(g: Gateway, ks: seq<nat>, k: nat)
    requires LaidAt(g, ks) && FirstFree(g.base, Slots(g.mask), Ends(g.rows), 0) == Some(k)
    ensures LaidAt(g.(rows := g.rows + [Tun(SlotEnd(g.base, k), MaxKey(g.rows) + 1, false)]), ks + [k])
  {
    MaxKeyIs(g.rows);
    EndsIff(g, ks, k);
  }

  lemma DeleteLaid(g: Gateway, ks: seq<nat>, i: nat)
    requires LaidAt(g, ks)
    ensures LaidAt(Delete(g, i), ks)
  {
  }

  lemma StepLaid(g: Gateway, e: Event)
    requires Laid(g)
    ensures Laid(Step(g, e))
  {
    var ks :| LaidAt(g, ks);
    match e
    case DoProvision =>
      var r := FirstFree(g.base, Slots(g.mask), Ends(g.rows), 0);
      if r.Some? { ProvisionLaid(g, ks, r.value); }
    case DoDelete(i) => DeleteLaid(g, ks, i);
  }

  /** Over every run from an empty gateway. */
  lemma {:induction false} RunLaid(base: nat, mask: nat, es: seq<Event>)
    requires mask <= 30
    ensures var g := Run(Gateway(base, mask, []), es);
            Laid(g) && g.base == base && g.mask == mask
    decreases |es|
  {
    if es == [] {
      assert LaidAt(Gateway(base, mask, []), []);
    } else {
      RunLaid(base, mask, es[..|es| - 1]);
      StepLaid(Run(Gateway(base, mask, []), es[..|es| - 1]), es[|es| - 1]);
    }
  }

  /** Some deletion named row i while it existed. */
  ghost predicate DeletedIn(base: nat, mask: nat, es: seq<Event>, i: nat) {
    exists j :: 0 <= j < |es| && es[j] == DoDelete(i) && i < |Run(Gateway(base, mask, []), es[..j]).rows|
  }

  lemma DeletedSnoc(base: nat, mask: nat, es: seq<Event>, i: nat)
    requires es != []
    ensures var n := |es| - 1;
            DeletedIn(base, mask, es, i) <==>
              DeletedIn(base, mask, es[..n], i) ||
              (es[n] == DoDelete(i) && i < |Run(Gateway(base, mask, []), es[..n]).rows|)
  {
    var n := |es| - 1;
    assert forall j :: 0 <= j <= n ==> es[..n][..j] == es[..j];
    assert forall j :: 0 <= j < n ==> es[..n][j] == es[j];
  }

  /** Over every run a row is marked deleted exactly when somebody deleted it, and no row ever goes away. */
  lemma {:induction false} DeletedIff(base: nat, mask: nat, es: seq<Event>, i: nat)
    requires i < |Run(Gateway(base, mask, []), es).rows|
    ensures Run(Gateway(base, mask, []), es).rows[i].deleted <==> DeletedIn(base, mask, es, i)
    decreases |es|
  {
    var n := |es| - 1;
    var g := Run(Gateway(base, mask, []), es[..n]);
    DeletedSnoc(base, mask, es, i);
    if i < |g.rows| {
      DeletedIff(base, mask, es[..n], i);
    } else {
      NeverDeletedYet(base, mask, es[..n], i);
    }
  }

  /** Rows are only added. */
  lemma {:induction false} RowsGrow(base: nat, mask: nat, es: seq<Event>, j: nat)
    requires j <= |es|
    ensures |Run(Gateway(base, mask, []), es[..j]).rows| <= |Run(Gateway(base, mask, []), es).rows|
    decreases |es|
  {
    if j < |es| {
      var n := |es| - 1;
      assert es[..n][..j] == es[..j];
      RowsGrow(base, mask, es[..n], j);
    } else {
      assert es[..j] == es;
    }
  }

  lemma NeverDeletedYet(base: nat, mask: nat, es: seq<Event>, i: nat)
    requires i >= |Run(Gateway(base, mask, []), es).rows|
    ensures !DeletedIn(base, mask, es, i)
  {
    forall j | 0 <= j < |es| ensures i >= |Run(Gateway(base, mask, []), es[..j]).rows| { RowsGrow(base, mask, es, j); }
  }

  /** The /30 of a row, deleted or not, is aligned and inside the subnet. */
  lemma SlotInside(g: Gateway, i: nat)
    requires Laid(g) && Subnet(g.base, g.mask) && i < |g.rows|
    ensures var m := g.rows[i].end - 1;
            m % 4 == 0 && g.base <= m && m + 4 <= g.base + Pow2(32 - g.mask) <= TWO32
    ensures g.rows[i].key == 1000 + i
  {
    var ks :| LaidAt(g, ks);
    var k := ks[i];
    assert g.rows[i].end == g.base + 4 * k + 1 && k < Slots(g.mask);
    SubnetFits(g.base, g.mask);
  }

  /** Whatever derives the pair again from a row's stored end gets the pair that was allocated. */
  lemma SlotRederived(g: Gateway, i: nat)
    requires Laid(g) && Subnet(g.base, g.mask) && i < |g.rows|
    ensures exists k: nat ::
              k < Slots(g.mask) && g.rows[i].end == SlotEnd(g.base, k) &&
              Rederive(IntToIp4(SlotEnd(g.base, k))) == Nth(g.base, k)
  {
    var ks :| LaidAt(g, ks);
    SlotInside(g, i);
    RederivedIsAllocated(g.base, ks[i]);
  }

  /** The /30s of any two rows are disjoint. */
  lemma SlotsApart(g: Gateway, i: nat, j: nat)
    requires Laid(g) && i < j < |g.rows|
    ensures g.rows[i].end + 4 <= g.rows[j].end || g.rows[j].end + 4 <= g.rows[i].end
  {
    var ks :| LaidAt(g, ks);
    assert ks[i] != ks[j];
  }

  ghost function Elements(ks: seq<nat>): set<nat> {
    set k | k in ks
  }

  lemma {:induction false} DistinctCount(ks: seq<nat>)
    requires Distinct(ks)
    ensures |Elements(ks)| == |ks|
    decreases |ks|
  {
    if ks != [] {
      var n := |ks| - 1;
      DistinctCount(ks[..n]);
      assert ks == ks[..n] + [ks[n]];
      assert Elements(ks) == Elements(ks[..n]) + {ks[n]};
    }
  }

  lemma SmallerSet(s: set<nat>, t: set<nat>)
    requires s <= t
    ensures |s| <= |t| && (|s| == |t| <==> s == t)
  {
    assert t == s + (t - s);
    assert |t| == |s| + |t - s|;
    if s != t { var x :| x in t && x !in s; assert x in t - s; }
  }

  /** Distinct numbers below n are all of them exactly if there are n. */
  lemma Pigeonhole(ks: seq<nat>, n: nat)
    requires Distinct(ks) && forall k :: k in ks ==> k < n
    ensures |ks| <= n && (|ks| == n <==> forall k: nat :: k < n ==> k in ks)
  {
    DistinctCount(ks);
    SmallerSet(Elements(ks), Interval(0, n));
    assert Elements(ks) == Interval(0, n) <==> forall k: nat :: k < n ==> k in ks by {
      assert forall k: nat :: k < n ==> k in Interval(0, n);
      assert forall k: nat :: k in ks <==> k in Elements(ks);
    }
  }

  /** Exhaustion is reported exactly when every /30 has been handed out once, so a gateway provisions
      at most that many tunnels in its life, however many were deleted. */
  lemma ExhaustedIff(g: Gateway)
    requires Laid(g)
    ensures g.mask <= 30 && |g.rows| <= Slots(g.mask)
    ensures Provision(g).None? <==> |g.rows| == Slots(g.mask)
  {
    var ks :| LaidAt(g, ks);
    var n := Slots(g.mask);
    Pigeonhole(ks, n);
    var r := FirstFree(g.base, n, Ends(g.rows), 0);
    if r.Some? {
      EndsIff(g, ks, r.value);
    } else {
      forall k: nat | k < n ensures k in ks {
        assert SlotEnd(g.base, k) in Ends(g.rows);
        EndsIff(g, ks, k);
      }
    }
  }

  /** The search looks at gateway ends only: an address of another kind at the second host of a /30 does
      not stop that /30 from being handed out. */
  lemma SecondHostIgnored(base: nat, mask: nat)
    requires 2 <= mask <= 30
    ensures FirstFree(base, Slots(mask), {base + 2}, 0) == Some(0)
    ensures Nth(base, 0).custEnd == IntToIp4(base + 2)
  {
  }

  /** Exactly when the /30 that the search finds is free of addresses in use: none of its other three
      addresses is. */
  lemma FoundFreeIff(base: nat, n: nat, used: set<nat>, k: nat)
    requires FirstFree(base, n, used, 0) == Some(k)
    ensures (forall a :: a in used ==> !(base + 4 * k <= a < base + 4 * k + 4)) <==>
            base + 4 * k !in used && base + 4 * k + 2 !in used && base + 4 * k + 3 !in used
  {
    assert base + 4 * k + 1 !in used;
  }

  /** When every address in use is some slot's gateway end, the new /30 holds none of them. */
  lemma FreshWhenGreOnly(g: Gateway, k: nat, a: nat)
    requires Laid(g) && g.mask <= 30 && FirstFree(g.base, Slots(g.mask), Ends(g.rows), 0) == Some(k)
    requires a in Ends(g.rows)
    ensures !(g.base + 4 * k <= a < g.base + 4 * k + 4)
  {
    var ks :| LaidAt(g, ks);
    EndsIff(g, ks, k);
    var i :| 0 <= i < |g.rows| && g.rows[i].end == a;
    assert ks[i] in ks && a == SlotEnd(g.base, ks[i]);
  }
}

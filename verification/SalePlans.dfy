/** IPv4 arithmetic as JavaScript computes it, sale plans, and the search for free addresses
    (packages/provisioning/src/sale-plans.ts, and the checks of addPool and addSalePlan in
    apps/api/src/admin/admin.controller.ts). */
module SalePlans {
  import opened Common
  import opened Arith

  const TWO32 := 0x1_0000_0000

  /** The 32-bit conversions behind the shift operators. */
  function ToInt32(x: int): int {
    var m := x % TWO32;
    if m < 0x8000_0000 then m else m - TWO32
  }

  function ToUint32(x: int): int {
    x % TWO32
  }

  /** x << k: the count is taken modulo 32. */
  function Shl(x: int, k: int): int {
    ToInt32(ToInt32(x) * Pow2(k % 32))
  }

  /** ip4ToInt: a left fold over the octets, made unsigned at the end. */
  function Folded(octets: seq<nat>): int
    decreases |octets|
  {
    if octets == [] then 0 else Shl(Folded(octets[..|octets| - 1]), 8) + octets[|octets| - 1]
  }

  function Ip4ToInt(octets: seq<nat>): int {
    ToUint32(Folded(octets))
  }

  /** intToIp4 for a number below 2^32: four unsigned shifts, each masked to a byte. */
  function IntToIp4(n: nat): seq<nat> {
    [n / 0x100_0000 % 256, n / 0x1_0000 % 256, n / 0x100 % 256, n % 256]
  }

  lemma PowersOfTwo()
    ensures Pow2(0) == 1 && Pow2(8) == 0x100 && Pow2(16) == 0x1_0000
    ensures Pow2(24) == 0x100_0000 && Pow2(30) == 0x4000_0000 && Pow2(31) == 0x8000_0000 && Pow2(32) == TWO32
  {
    assert Pow2(4) == 16;
    assert Pow2(8) == 0x100;
    assert Pow2(12) == 0x1000;
    assert Pow2(16) == 0x1_0000;
    assert Pow2(20) == 0x10_0000;
    assert Pow2(24) == 0x100_0000;
    assert Pow2(28) == 0x1000_0000;
    assert Pow2(30) == 0x4000_0000;
    assert Pow2(31) == 0x8000_0000;
  }

  lemma ShiftByte(x: int)
    requires 0 <= x < 0x8000_0000
    ensures Shl(x, 8) == ToInt32(x * 0x100)
  {
    PowersOfTwo();
  }

  /** One step of the fold, while the result still fits. */
  lemma FoldStep(o: seq<nat>, d: nat)
    requires 0 <= Folded(o) < 0x100_0000
    ensures Folded(o + [d]) == ToInt32(Folded(o) * 0x100) + d
    ensures Folded(o) < 0x80_0000 ==> Folded(o + [d]) == Folded(o) * 0x100 + d
  {
    assert (o + [d])[..|o|] == o;
    ShiftByte(Folded(o));
    if Folded(o) < 0x80_0000 { ToInt32Small(Folded(o) * 0x100); }
  }

  lemma SignRepaired(v: nat, d: nat)
    requires v + d < TWO32
    ensures ToUint32(ToInt32(v) + d) == v + d
  {
  }

  /** The fold overflows into the sign bit on its last step, and the final >>> 0 repairs it. */
  lemma Ip4ToIntIs(a: nat, b: nat, c: nat, d: nat)
    requires a < 256 && b < 256 && c < 256 && d < 256
    ensures Ip4ToInt([a, b, c, d]) == a * 0x100_0000 + b * 0x1_0000 + c * 0x100 + d
  {
    assert [] + [a] == [a] && [a] + [b] == [a, b] && [a, b] + [c] == [a, b, c] && [a, b, c] + [d] == [a, b, c, d];
    assert Folded([a]) == a by { FoldStep([], a); }
    assert Folded([a, b]) == a * 0x100 + b by { FoldStep([a], b); }
    var v := (a * 0x100 + b) * 0x100 + c;
    assert Folded([a, b, c]) == v by { FoldStep([a, b], c); }
    FoldStep([a, b, c], d);
    SignRepaired(v * 0x100, d);
  }

  lemma Distribute(e: nat, r: nat, m: nat)
    requires r < 0x100
    ensures (e * 0x100 + r) * m == e * (m * 0x100) + r * m && 0 <= r * m <= 0xff * m
  {
  }

  lemma DivDiv(n: nat, m: nat)
    requires m > 0
    ensures n / (m * 0x100) == n / m / 0x100
  {
    var q, t := n / m, n % m;
    var e, r := q / 0x100, q % 0x100;
    Distribute(e, r, m);
    ModUnique(n, m * 0x100, e, r * m + t) by { assert n == q * m + t; }
  }

  lemma BytesOf(n: nat)
    requires n < TWO32
    ensures var x1, x2, x3 := n / 0x100, n / 0x1_0000, n / 0x100_0000;
            x3 < 0x100 && n == x3 % 0x100 * 0x100_0000 + x2 % 0x100 * 0x1_0000 + x1 % 0x100 * 0x100 + n % 0x100
  {
    DivDiv(n, 0x100);
    DivDiv(n, 0x1_0000);
  }

  /** Printing an address and reading it back gives the same number. */
  lemma Ip4RoundTrip(n: nat)
    requires n < TWO32
    ensures Ip4ToInt(IntToIp4(n)) == n
  {
    var x1, x2, x3 := n / 0x100, n / 0x1_0000, n / 0x100_0000;
    BytesOf(n);
    Ip4ToIntIs(x3 % 256, x2 % 256, x1 % 256, n % 256);
  }

  /** parseCidr's size, 1 << (32 - prefix). */
  function CidrSize(len: int): int {
    Shl(1, 32 - len)
  }

  lemma {:induction false} Pow2Monotone(a: nat, b: nat)
    requires a <= b
    ensures Pow2(a) <= Pow2(b)
    decreases b - a
  {
    if a < b { Pow2Monotone(a + 1, b); }
  }

  lemma ToInt32Small(x: int)
    requires 0 <= x < 0x8000_0000
    ensures ToInt32(x) == x
  {
  }

  /** 1 << k for the counts that reach the shifter. */
  lemma ShiftOne(k: nat)
    requires k <= 31
    ensures Shl(1, k) == if k <= 30 then Pow2(k) else -0x8000_0000
  {
    PowersOfTwo();
    ToInt32Small(1);
    assert k % 32 == k;
    assert Shl(1, k) == ToInt32(Pow2(k));
    if k <= 30 {
      Pow2Monotone(k, 30);
      ToInt32Small(Pow2(k));
    }
  }

  /** The shift gives the true number of addresses exactly for prefixes /2 and longer: /1 comes out
      negative and /0 comes out as 1. */
  lemma CidrSizeIff(len: nat)
    requires len <= 32
    ensures CidrSize(len) == Pow2(32 - len) <==> len >= 2
  {
    if len == 0 {
      PowersOfTwo();
      ShiftOne(0);
    } else {
      ShiftOne(32 - len);
    }
  }

  /** Bitwise and of two non-negative numbers. */
  function BitAnd(x: nat, y: nat): nat {
    if x == 0 || y == 0 then 0 else 2 * BitAnd(x / 2, y / 2) + (x % 2) * (y % 2)
  }

  lemma HalfMod(x: nat, m: nat)
    requires m > 0
    ensures x % (2 * m) == 2 * (x / 2 % m) + x % 2
  {
    var q, r := x / 2 / m, x / 2 % m;
    assert x / 2 == q * m + r;
    assert x == q * (2 * m) + (2 * r + x % 2);
    ModUnique(x, 2 * m, q, 2 * r + x % 2);
  }

  lemma AndOdd(x: nat, m: nat)
    requires m > 0
    ensures BitAnd(x, 2 * m - 1) == 2 * BitAnd(x / 2, m - 1) + x % 2
  {
    assert (2 * m - 1) / 2 == m - 1 && (2 * m - 1) % 2 == 1;
  }

  /** Masking with 2^k - 1 is the remainder modulo 2^k; with it isAligned means what it says. */
  lemma {:induction false} MaskIsMod(x: nat, k: nat, m: nat)
    requires m == Pow2(k)
    ensures BitAnd(x, m - 1) == x % m
    decreases k
  {
    if k > 0 {
      var h := Pow2(k - 1);
      MaskIsMod(x / 2, k - 1, h);
      AndOdd(x, h);
      HalfMod(x, h);
    }
  }

  // ----- ranges and plans -----

  /** An address range [net, net + size); a size that is not positive denotes no address. */
  datatype Range = Range(net: int, size: int)

  ghost predicate In(r: Range, a: int) {
    r.net <= a < r.net + r.size
  }

  ghost predicate Within(inner: Range, outer: Range) {
    forall a :: In(inner, a) ==> In(outer, a)
  }

  ghost predicate Apart(r: Range, s: Range) {
    forall a :: !(In(r, a) && In(s, a))
  }

  predicate Contains(outer: Range, inner: Range) {
    inner.net >= outer.net && inner.net + inner.size <= outer.net + outer.size
  }

  predicate Overlap(a: Range, b: Range) {
    a.net < b.net + b.size && b.net < a.net + a.size
  }

  /** isAligned for a size that is a power of two. */
  predicate Aligned(r: Range) {
    r.size > 0 ==> r.net % r.size == 0
  }

  /** The mask test of isAligned agrees with divisibility. */
  lemma MaskTest(net: nat, k: nat)
    ensures BitAnd(net, Pow2(k) - 1) == 0 <==> Aligned(Range(net, Pow2(k)))
  {
    MaskIsMod(net, k, Pow2(k));
  }

  /** parseCidr's range, and isAligned: the & of the two 32-bit numbers is zero. */
  function CidrRange(net: nat, len: nat): Range {
    Range(net, CidrSize(len))
  }

  predicate MaskOk(net: nat, len: nat) {
    BitAnd(net, ToUint32(CidrSize(len) - 1)) == 0
  }

  /** For the block sizes on sale the mask test of isAligned is divisibility. */
  lemma BlockMask(net: nat, size: nat)
    requires size in BLOCK_SIZES
    ensures BitAnd(net, size - 1) == 0 <==> net % size == 0
  {
    MaskIsMod(net, 32 - PrefixOf(size), size);
  }

  datatype Mode = Single | Blocks(size: nat)

  datatype Plan = Plan(range: Range, mode: Mode)

  const BLOCK_SIZES: set<nat> := {2, 4, 8, 16, 32, 64, 128, 256}

  /** BLOCK_SIZE_TO_PREFIX. */
  function PrefixOf(size: nat): (len: nat)
    requires size in BLOCK_SIZES
    ensures 24 <= len <= 31 && Pow2(32 - len) == size
  {
    PowersOfTwo();
    assert Pow2(1) == 2 && Pow2(2) == 4 && Pow2(3) == 8 && Pow2(4) == 16 && Pow2(5) == 32 && Pow2(6) == 64 &&
        Pow2(7) == 128;
    if size == 2 then 31 else if size == 4 then 30 else if size == 8 then 29 else if size == 16 then 28
    else if size == 32 then 27 else if size == 64 then 26 else if size == 128 then 25 else 24
  }

  ghost predicate IsPow2(n: int) {
    exists k: nat :: n == Pow2(k)
  }

  /** What the plans of a pool satisfy, in terms of the addresses they denote. */
  ghost predicate PlanOk(pool: Range, p: Plan) {
    && Within(p.range, pool) && Aligned(p.range)
    && (p.range.size > 0 ==> IsPow2(p.range.size))
    && (p.mode.Blocks? ==> p.mode.size in BLOCK_SIZES && p.range.size >= p.mode.size)
  }

  ghost predicate PlansOk(pool: Range, plans: seq<Plan>) {
    && (forall i :: 0 <= i < |plans| ==> PlanOk(pool, plans[i]))
    && (forall i, j :: 0 <= i < j < |plans| ==> Apart(plans[i].range, plans[j].range))
  }

  ghost predicate PoolOk(pool: Range) {
    Aligned(pool) && IsPow2(pool.size) && 0 <= pool.net && pool.net + pool.size <= TWO32 && pool.size <= 0x1_0000
  }

  /** The checks of addSalePlan, for any network address and prefix length. */
  predicate PlanAccepted(pool: Range, plans: seq<Plan>, net: nat, len: nat, mode: Mode) {
    && (mode.Blocks? ==> mode.size in BLOCK_SIZES)
    && MaskOk(net, len)
    && Contains(pool, CidrRange(net, len))
    && (mode.Blocks? ==> CidrSize(len) >= mode.size)
    && forall i :: 0 <= i < |plans| ==> !Overlap(plans[i].range, CidrRange(net, len))
  }

  /** The checks of addPool on the block itself. */
  predicate PoolAccepted(net: nat, len: nat, mode: Mode) {
    && MaskOk(net, len) && 16 <= len <= 32
    && (mode.Blocks? ==> mode.size in BLOCK_SIZES && CidrSize(len) >= mode.size)
  }

  lemma OverlapSound(a: Range, b: Range)
    ensures !Overlap(a, b) ==> Apart(a, b)
    ensures a.size > 0 && b.size > 0 && Overlap(a, b) ==> !Apart(a, b)
  {
    if a.size > 0 && b.size > 0 && Overlap(a, b) {
      var x := if a.net < b.net then b.net else a.net;
      assert In(a, x) && In(b, x);
    }
  }

  /** Every positive size that the shift can produce is a power of two. */
  lemma CidrSizeIsPow2(len: int) returns (k: nat)
    ensures CidrSize(len) > 0 ==> k <= 30 && CidrSize(len) == Pow2(k)
  {
    k := (32 - len) % 32;
    ShiftOne(k);
    assert CidrSize(len) == Shl(1, k) by { assert k % 32 == k; }
  }

  lemma PositiveSize(len: nat)
    requires 16 <= len <= 32
    ensures CidrSize(len) > 0
  {
    CidrSizeIff(len);
  }

  lemma SmallPower(k: nat)
    requires k <= 30
    ensures 0 < Pow2(k) <= 0x4000_0000
  {
    PowersOfTwo();
    Pow2Monotone(k, 30);
  }

  lemma SmallUnsigned(x: int)
    requires 0 <= x < TWO32
    ensures ToUint32(x) == x
  {
  }

  lemma MaskWith(net: nat, size: int, k: nat)
    requires k <= 30 && size == Pow2(k) && BitAnd(net, ToUint32(size - 1)) == 0
    ensures net % size == 0
  {
    SmallPower(k);
    SmallUnsigned(size - 1);
    MaskTest(net, k);
  }

  /** What the mask test establishes, for every prefix length that the text can carry. */
  lemma MaskAligns(net: nat, len: nat)
    requires MaskOk(net, len)
    ensures Aligned(CidrRange(net, len)) && (CidrSize(len) > 0 ==> IsPow2(CidrSize(len)))
  {
    var k := CidrSizeIsPow2(len);
    if CidrSize(len) > 0 { MaskWith(net, CidrSize(len), k); }
  }

  lemma OverlapIff(a: Range, b: Range)
    requires a.size > 0 && b.size > 0
    ensures Overlap(a, b) <==> !Apart(a, b)
  {
    OverlapSound(a, b);
  }

  lemma ContainsIff(outer: Range, inner: Range)
    requires inner.size > 0
    ensures Contains(outer, inner) <==> Within(inner, outer)
  {
    if Within(inner, outer) { assert In(inner, inner.net) && In(inner, inner.net + inner.size - 1); }
  }

  lemma MaskOkIff(net: nat, len: nat)
    requires CidrSize(len) > 0
    ensures MaskOk(net, len) <==> net % CidrSize(len) == 0
  {
    var k := CidrSizeIsPow2(len);
    SmallPower(k);
    SmallUnsigned(CidrSize(len) - 1);
    MaskTest(net, k);
  }

  /** addSalePlan accepts exactly the ranges that are aligned to their size, lie inside the pool, share no
      address with another plan and, for block plans, hold at least one block of a size on sale. */
  lemma PlanAcceptedIff(pool: Range, plans: seq<Plan>, net: nat, len: nat, mode: Mode)
    requires CidrSize(len) > 0 && forall i :: 0 <= i < |plans| ==> plans[i].range.size > 0
    ensures var r := CidrRange(net, len);
            PlanAccepted(pool, plans, net, len, mode) <==>
              && net % r.size == 0 && Within(r, pool)
              && (mode.Blocks? ==> mode.size in {2, 4, 8, 16, 32, 64, 128, 256} && mode.size <= r.size)
              && forall i :: 0 <= i < |plans| ==> Apart(plans[i].range, r)
  {
    var r := CidrRange(net, len);
    MaskOkIff(net, len);
    ContainsIff(pool, r);
    forall i | 0 <= i < |plans| ensures Overlap(plans[i].range, r) <==> !Apart(plans[i].range, r) {
      OverlapIff(plans[i].range, r);
    }
  }

  /** addPool accepts exactly the aligned blocks of prefix 16 to 32 that hold a block of the size to be sold. */
  lemma PoolAcceptedIff(net: nat, len: nat, mode: Mode)
    ensures PoolAccepted(net, len, mode) <==>
              && 16 <= len <= 32 && net % Pow2(32 - len) == 0
              && (mode.Blocks? ==> mode.size in {2, 4, 8, 16, 32, 64, 128, 256} && mode.size <= Pow2(32 - len))
  {
    if 16 <= len <= 32 {
      CidrSizeIff(len);
      MaskOkIff(net, len);
    }
  }

  /** addSalePlan keeps the plans of a pool aligned, contained and pairwise disjoint. */
  lemma AddSalePlanKeeps(pool: Range, plans: seq<Plan>, net: nat, len: nat, mode: Mode)
    requires PlansOk(pool, plans) && PlanAccepted(pool, plans, net, len, mode)
    ensures PlansOk(pool, plans + [Plan(CidrRange(net, len), mode)])
  {
    MaskAligns(net, len);
    forall i | 0 <= i < |plans| ensures Apart(plans[i].range, CidrRange(net, len)) {
      OverlapSound(plans[i].range, CidrRange(net, len));
    }
  }

  /** addPool: an accepted pool is a proper range and its default plan is in order. */
  lemma AddPoolKeeps(net: nat, len: nat, mode: Mode)
    requires net < TWO32 && PoolAccepted(net, len, mode)
    ensures var pool := CidrRange(net, len);
            PoolOk(pool) && PlansOk(pool, [Plan(pool, mode)])
  {
    MaskAligns(net, len);
    PowersOfTwo();
    CidrSizeIff(len);
    Pow2Monotone(32 - len, 16);
    AlignedFits(net, 32 - len, CidrSize(len));
  }

  /** An aligned range that starts below 2^32 ends at or below it. */
  lemma AlignedFits(net: nat, k: nat, s: nat)
    requires net < TWO32 && k <= 32 && s == Pow2(k) && net % s == 0
    ensures net + s <= TWO32
  {
    var c := Pow2(32 - k);
    Pow2Splits(k, 32);
    assert Pow2(32) == TWO32 by { PowersOfTwo(); }
    MultipleBelow(net, s, c);
  }

  lemma MultipleBelow(net: nat, s: int, c: int)
    requires s > 0 && net % s == 0 && net < s * c
    ensures net + s <= s * c
  {
    var q := net / s;
    assert net == q * s;
    assert q >= c ==> q * s >= c * s;
    assert q + 1 <= c ==> (q + 1) * s <= c * s;
  }

  lemma {:induction false} Pow2Splits(a: nat, b: nat)
    requires a <= b
    ensures Pow2(b) == Pow2(a) * Pow2(b - a)
    decreases a
  {
    if a > 0 { Pow2Splits(a - 1, b - 1); }
  }

  // ----- the searches -----

  function SingleRanges(pool: Range, plans: seq<Plan>): seq<Range> {
    if plans == [] then [pool] else Select(plans, Single)
  }

  function BlockRanges(pool: Range, plans: seq<Plan>, size: nat): seq<Range> {
    if plans == [] then [pool] else Select(plans, Blocks(size))
  }

  /** The ranges of the plans with the given mode, in plan order. */
  function Select(plans: seq<Plan>, mode: Mode): (rs: seq<Range>)
    decreases |plans|
  {
    if plans == [] then [] else
    var n := |plans| - 1;
    Select(plans[..n], mode) + if plans[n].mode == mode then [plans[n].range] else []
  }

  /** Range k is that of plan at[k]; the indices increase and name every plan with the mode. */
  ghost predicate InPlanOrder(plans: seq<Plan>, mode: Mode, rs: seq<Range>, at: seq<nat>) {
    && |at| == |rs|
    && (forall k :: 0 <= k < |at| ==> at[k] < |plans| && plans[at[k]].mode == mode && plans[at[k]].range == rs[k])
    && (forall j, k :: 0 <= j < k < |at| ==> at[j] < at[k])
    && (forall i: nat :: i < |plans| && plans[i].mode == mode ==> i in at)
  }

  lemma OrderKept(plans: seq<Plan>, p: Plan, mode: Mode, rs: seq<Range>, at: seq<nat>)
    requires InPlanOrder(plans, mode, rs, at) && p.mode != mode
    ensures InPlanOrder(plans + [p], mode, rs, at)
  {
  }

  lemma OrderSnoc(plans: seq<Plan>, p: Plan, mode: Mode, rs: seq<Range>, at: seq<nat>)
    requires InPlanOrder(plans, mode, rs, at) && p.mode == mode
    ensures InPlanOrder(plans + [p], mode, rs + [p.range], at + [|plans|])
  {
    var at' := at + [|plans|];
    forall i: nat | i < |plans + [p]| && (plans + [p])[i].mode == mode ensures i in at' {
      if i < |plans| { assert i in at; } else { assert at'[|at|] == i; }
    }
  }

  lemma {:induction false} SelectOrder(plans: seq<Plan>, mode: Mode) returns (at: seq<nat>)
    ensures InPlanOrder(plans, mode, Select(plans, mode), at)
    decreases |plans|
  {
    at := [];
    if plans != [] {
      var n := |plans| - 1;
      at := SelectOrder(plans[..n], mode);
      assert plans == plans[..n] + [plans[n]];
      if plans[n].mode == mode {
        OrderSnoc(plans[..n], plans[n], mode, Select(plans[..n], mode), at);
        at := at + [n];
      } else {
        OrderKept(plans[..n], plans[n], mode, Select(plans[..n], mode), at);
        assert Select(plans[..n], mode) + [] == Select(plans[..n], mode);
      }
    }
  }

  /** A range on sale in this mode: that of a plan with the mode, or the pool when it has no plans. */
  ghost predicate OnSale(pool: Range, plans: seq<Plan>, mode: Mode, r: Range) {
    if plans == [] then r == pool
    else exists i: nat :: i < |plans| && plans[i].mode == mode && plans[i].range == r
  }

  /** Where the q-th window starts, counted as the loop counts: off += blockSize. */
  function Offset(size: nat, q: nat): (off: nat)
    decreases q
  {
    if q == 0 then 0 else Offset(size, q - 1) + size
  }

  lemma {:induction false} OffsetIs(size: nat, q: nat)
    ensures Offset(size, q) == q * size
    decreases q
  {
    if q > 0 { OffsetIs(size, q - 1); }
  }

  lemma {:induction false} OffsetMonotone(size: nat, q: nat, k: nat)
    requires q <= k
    ensures Offset(size, q) <= Offset(size, k)
    decreases k
  {
    if q < k { OffsetMonotone(size, q, k - 1); }
  }

  /** The q-th window of `size` addresses in r. */
  predicate Window(r: Range, size: nat, q: nat) {
    Offset(size, q) + size <= r.size
  }

  lemma WindowMeans(r: Range, size: nat, q: nat)
    ensures Offset(size, q) == q * size
    ensures Window(r, size, q) <==> r.net + q * size + size <= r.net + r.size
  {
    OffsetIs(size, q);
  }

  ghost predicate Free(start: int, size: nat, taken: set<int>) {
    forall a :: start <= a < start + size ==> a !in taken
  }

  ghost predicate NoneFree(r: Range, size: nat, upto: nat, taken: set<int>) {
    forall q: nat :: q < upto && Window(r, size, q) ==> !Free(r.net + Offset(size, q), size, taken)
  }

  ghost predicate Exhausted(rs: seq<Range>, n: nat, size: nat, taken: set<int>)
    requires n <= |rs|
  {
    forall i, q: nat :: 0 <= i < n && Window(rs[i], size, q) ==> !Free(rs[i].net + Offset(size, q), size, taken)
  }

  /** The q-th window of the i-th range is free and nothing before it is. */
  ghost predicate FirstFree(rs: seq<Range>, i: nat, q: nat, size: nat, taken: set<int>)
    requires i < |rs|
  {
    && Window(rs[i], size, q) && Free(rs[i].net + Offset(size, q), size, taken)
    && Exhausted(rs, i, size, taken) && NoneFree(rs[i], size, q, taken)
  }

  /** The addresses start, start+1, ..., start+size-1. */
  function Run(start: int, size: nat): (s: seq<int>)
    ensures |s| == size && forall i :: 0 <= i < size ==> s[i] == start + i
  {
    seq(size, i => start + i)
  }

  /** The inner loop over one range. */
  method SearchRange(r: Range, size: nat, taken: set<int>) returns (found: Option<nat>)
    requires size > 0
    ensures found.Some? ==> Window(r, size, found.value) && Free(r.net + Offset(size, found.value), size, taken) &&
                            NoneFree(r, size, found.value, taken)
    ensures found.None? ==> forall q: nat :: Window(r, size, q) ==> !Free(r.net + Offset(size, q), size, taken)
  {
    var off, q := 0, 0;
    while off + size <= r.size
      invariant off == Offset(size, q)
      invariant NoneFree(r, size, q, taken)
      decreases r.size - off
    {
      var free, i := true, 0;
      while i < size && free
        invariant 0 <= i <= size
        invariant free ==> forall a :: r.net + off <= a < r.net + off + i ==> a !in taken
        invariant !free ==> !Free(r.net + off, size, taken)
        decreases size - i, free
      {
        if r.net + off + i in taken { free := false; } else { i := i + 1; }
      }
      if free { return Some(q); }
      off, q := off + size, q + 1;
    }
    forall k: nat | Window(r, size, k) ensures k < q {
      WindowBound(r, size, k, q);
    }
    return None;
  }

  lemma WindowBound(r: Range, size: nat, k: nat, q: nat)
    requires Window(r, size, k) && Offset(size, q) + size > r.size
    ensures k < q
  {
    if k >= q { OffsetMonotone(size, q, k); }
  }

  /** The q-th window of r is its first free one. */
  ghost predicate FirstIn(r: Range, q: nat, size: nat, taken: set<int>) {
    Window(r, size, q) && Free(r.net + Offset(size, q), size, taken) && NoneFree(r, size, q, taken)
  }

  ghost predicate Full(r: Range, size: nat, taken: set<int>) {
    forall q: nat :: Window(r, size, q) ==> !Free(r.net + Offset(size, q), size, taken)
  }

  /** Plan i sells blocks of this size, its q-th window starts at `start` and is its first free one, and no
      earlier plan of the size has any. */
  ghost predicate FirstOfPlans(plans: seq<Plan>, i: nat, q: nat, size: nat, start: int, taken: set<int>) {
    && i < |plans| && plans[i].mode == Blocks(size) && FirstIn(plans[i].range, q, size, taken)
    && start == plans[i].range.net + Offset(size, q)
    && forall j: nat :: j < i && plans[j].mode == Blocks(size) ==> Full(plans[j].range, size, taken)
  }

  /** The first free window in plan order; a pool without plans is one range. */
  ghost predicate FirstOnSale(pool: Range, plans: seq<Plan>, size: nat, start: int, taken: set<int>) {
    if plans == [] then exists q: nat :: FirstIn(pool, q, size, taken) && start == pool.net + Offset(size, q)
    else exists i: nat, q: nat :: FirstOfPlans(plans, i, q, size, start, taken)
  }

  /** Every window of every plan of the size, or of a pool without plans, holds a taken address. */
  ghost predicate SoldOut(pool: Range, plans: seq<Plan>, size: nat, taken: set<int>) {
    if plans == [] then Full(pool, size, taken)
    else forall i: nat :: i < |plans| && plans[i].mode == Blocks(size) ==> Full(plans[i].range, size, taken)
  }

  lemma FirstSelected(pool: Range, plans: seq<Plan>, rs: seq<Range>, k: nat, q: nat, size: nat, taken: set<int>)
    requires rs == BlockRanges(pool, plans, size) && k < |rs| && FirstFree(rs, k, q, size, taken)
    ensures FirstOnSale(pool, plans, size, rs[k].net + Offset(size, q), taken)
  {
    assert FirstIn(rs[k], q, size, taken);
    if plans != [] {
      var at := SelectOrder(plans, Blocks(size));
      forall j: nat | j < at[k] && plans[j].mode == Blocks(size) ensures Full(plans[j].range, size, taken) {
        var l :| 0 <= l < |at| && at[l] == j;
        assert l < k && rs[l] == plans[j].range;
      }
      assert FirstOfPlans(plans, at[k], q, size, rs[k].net + Offset(size, q), taken);
    }
  }

  lemma NoneSelected(pool: Range, plans: seq<Plan>, rs: seq<Range>, size: nat, taken: set<int>)
    requires rs == BlockRanges(pool, plans, size) && Exhausted(rs, |rs|, size, taken)
    ensures SoldOut(pool, plans, size, taken)
  {
    if plans == [] {
      assert rs[0] == pool;
    } else {
      var at := SelectOrder(plans, Blocks(size));
      forall i: nat | i < |plans| && plans[i].mode == Blocks(size) ensures Full(plans[i].range, size, taken) {
        var l :| 0 <= l < |at| && at[l] == i;
        assert rs[l] == plans[i].range;
      }
    }
  }

  /** findFreeBlock: the first free window in plan order, or null only when there is none. */
  method FindFreeBlock(pool: Range, plans: seq<Plan>, size: nat, taken: set<int>)
    returns (found: Option<(int, seq<int>)>)
    requires size > 0
    ensures match found
            case Some((start, ips)) => ips == Run(start, size) && FirstOnSale(pool, plans, size, start, taken)
            case None => SoldOut(pool, plans, size, taken)
  {
    var rs := BlockRanges(pool, plans, size);
    for i := 0 to |rs|
      invariant Exhausted(rs, i, size, taken)
    {
      var q := SearchRange(rs[i], size, taken);
      if q.Some? {
        FirstSelected(pool, plans, rs, i, q.value, size, taken);
        return Some((rs[i].net + Offset(size, q.value), Run(rs[i].net + Offset(size, q.value), size)));
      }
    }
    NoneSelected(pool, plans, rs, size, taken);
    return None;
  }

  /** a is the first free address of r. */
  ghost predicate FirstFreeIn(r: Range, a: int, taken: set<int>) {
    In(r, a) && a !in taken && forall c :: In(r, c) && c < a ==> c in taken
  }

  ghost predicate AllTaken(r: Range, taken: set<int>) {
    forall a :: In(r, a) ==> a in taken
  }

  /** a is free, and every address before it, in range order, is taken. */
  ghost predicate FirstAddress(rs: seq<Range>, i: nat, a: int, taken: set<int>)
    requires i < |rs|
  {
    FirstFreeIn(rs[i], a, taken) && forall j :: 0 <= j < i ==> AllTaken(rs[j], taken)
  }

  ghost predicate FirstOfSingles(plans: seq<Plan>, i: nat, a: int, taken: set<int>) {
    && i < |plans| && plans[i].mode == Single && FirstFreeIn(plans[i].range, a, taken)
    && forall j: nat :: j < i && plans[j].mode == Single ==> AllTaken(plans[j].range, taken)
  }

  /** The first free address in plan order; a pool without plans is one range. */
  ghost predicate FirstSingle(pool: Range, plans: seq<Plan>, a: int, taken: set<int>) {
    if plans == [] then FirstFreeIn(pool, a, taken) else exists i: nat :: FirstOfSingles(plans, i, a, taken)
  }

  ghost predicate SinglesSoldOut(pool: Range, plans: seq<Plan>, taken: set<int>) {
    if plans == [] then AllTaken(pool, taken)
    else forall i: nat :: i < |plans| && plans[i].mode == Single ==> AllTaken(plans[i].range, taken)
  }

  lemma FirstSingleSelected(pool: Range, plans: seq<Plan>, rs: seq<Range>, k: nat, a: int, taken: set<int>)
    requires rs == SingleRanges(pool, plans) && k < |rs| && FirstAddress(rs, k, a, taken)
    ensures FirstSingle(pool, plans, a, taken)
  {
    if plans != [] {
      var at := SelectOrder(plans, Single);
      forall j: nat | j < at[k] && plans[j].mode == Single ensures AllTaken(plans[j].range, taken) {
        var l :| 0 <= l < |at| && at[l] == j;
        assert l < k && rs[l] == plans[j].range;
      }
      assert FirstOfSingles(plans, at[k], a, taken);
    }
  }

  lemma NoSingleSelected(pool: Range, plans: seq<Plan>, rs: seq<Range>, taken: set<int>)
    requires rs == SingleRanges(pool, plans) && forall k :: 0 <= k < |rs| ==> AllTaken(rs[k], taken)
    ensures SinglesSoldOut(pool, plans, taken)
  {
    if plans == [] {
      assert rs[0] == pool;
    } else {
      var at := SelectOrder(plans, Single);
      forall i: nat | i < |plans| && plans[i].mode == Single ensures AllTaken(plans[i].range, taken) {
        var l :| 0 <= l < |at| && at[l] == i;
        assert rs[l] == plans[i].range;
      }
    }
  }

  /** findFreeSingleIp: the first free address in plan order, or null only when there is none. */
  method FindFreeSingleIp(pool: Range, plans: seq<Plan>, taken: set<int>) returns (found: Option<int>)
    ensures match found
            case Some(a) => FirstSingle(pool, plans, a, taken)
            case None => SinglesSoldOut(pool, plans, taken)
  {
    var rs := SingleRanges(pool, plans);
    for i := 0 to |rs|
      invariant forall j :: 0 <= j < i ==> AllTaken(rs[j], taken)
    {
      var off := 0;
      while off < rs[i].size
        invariant 0 <= off
        invariant forall a :: In(rs[i], a) && a < rs[i].net + off ==> a in taken
      {
        if rs[i].net + off !in taken {
          FirstSingleSelected(pool, plans, rs, i, rs[i].net + off, taken);
          return Some(rs[i].net + off);
        }
        off := off + 1;
      }
    }
    NoSingleSelected(pool, plans, rs, taken);
    return None;
  }

  /** isIpSellableAsSingle: no plans at all, or the plan that covers the address sells singles. */
  predicate SellableAsSingle(a: int, plans: seq<Plan>) {
    || plans == []
    || ((exists p :: p in plans && p.range.net <= a < p.range.net + p.range.size) && Cover(a, plans).mode == Single)
  }

  /** The first plan that covers the address. */
  function Cover(a: int, plans: seq<Plan>): (p: Plan)
    requires exists p :: p in plans && p.range.net <= a < p.range.net + p.range.size
    ensures p in plans && In(p.range, a)
  {
    if plans[0].range.net <= a < plans[0].range.net + plans[0].range.size then plans[0] else Cover(a, plans[1..])
  }

  /** Plan i is the first that covers the address. */
  ghost predicate CoversFirst(plans: seq<Plan>, i: nat, a: int) {
    i < |plans| && In(plans[i].range, a) && forall j: nat :: j < i ==> !In(plans[j].range, a)
  }

  lemma {:induction false} CoverIs(a: int, plans: seq<Plan>) returns (i: nat)
    requires exists p :: p in plans && In(p.range, a)
    ensures CoversFirst(plans, i, a) && plans[i] == Cover(a, plans)
  {
    if In(plans[0].range, a) {
      i := 0;
    } else {
      i := CoverIs(a, plans[1..]);
      i := i + 1;
      assert forall j: nat :: 0 < j < i ==> plans[j] == plans[1..][j - 1];
    }
  }

  lemma CoverHas(a: int, plans: seq<Plan>, i: nat)
    requires CoversFirst(plans, i, a)
    ensures exists p :: p in plans && In(p.range, a)
  {
    assert plans[i] in plans;
  }

  /** An address may be bought explicitly exactly when its pool has no plans, or the first plan that covers it
      sells singles. */
  lemma SellableIff(a: int, plans: seq<Plan>)
    ensures SellableAsSingle(a, plans) <==>
              plans == [] || exists i: nat :: CoversFirst(plans, i, a) && plans[i].mode == Single
  {
    if exists p :: p in plans && In(p.range, a) {
      var i := CoverIs(a, plans);
      forall j: nat | CoversFirst(plans, j, a) ensures j == i { }
    } else {
      forall i: nat ensures !CoversFirst(plans, i, a) {
        if CoversFirst(plans, i, a) { CoverHas(a, plans, i); }
      }
    }
  }

  /** Accepted plans cover an address at most once. */
  lemma CoveredOnce(pool: Range, plans: seq<Plan>, i: nat, j: nat, a: int)
    requires PlansOk(pool, plans) && i < |plans| && j < |plans| && In(plans[i].range, a) && In(plans[j].range, a)
    ensures i == j
  {
  }

  /** Whatever the search for a single returns, the check for explicit purchases accepts. */
  lemma FoundIsSellable(pool: Range, plans: seq<Plan>, r: Range, a: int)
    requires PlansOk(pool, plans) && OnSale(pool, plans, Single, r) && In(r, a)
    ensures SellableAsSingle(a, plans)
  {
    if plans != [] {
      var i: nat :| i < |plans| && plans[i].mode == Single && plans[i].range == r;
      var c := Cover(a, plans);
      var j :| 0 <= j < |plans| && plans[j] == c;
      CoveredOnce(pool, plans, i, j, a);
    }
  }

  // ----- what the found window is good for -----

  lemma FactorDivides(net: int, m: int, c: int)
    requires m > 0 && c > 0 && m * c > 0 && net % (m * c) == 0
    ensures net % m == 0
  {
    var q := net / (m * c);
    assert net == (q * c) * m + 0 by { assert net == q * (m * c); }
    ModUnique(net, m, q * c, 0);
  }

  lemma MultipleOfMultiple(net: int, a: nat, b: nat)
    requires b <= a && net % Pow2(a) == 0
    ensures net % Pow2(b) == 0
  {
    Pow2Splits(b, a);
    FactorDivides(net, Pow2(b), Pow2(a - b));
  }

  lemma OffsetAligned(net: int, q: nat, m: int)
    requires m > 0 && net % m == 0
    ensures (net + q * m) % m == 0
  {
    assert net == (net / m) * m;
    assert net + q * m == (net / m + q) * m + 0;
    ModUnique(net + q * m, m, net / m + q, 0);
  }

  lemma {:induction false} Pow2Order(a: nat, b: nat)
    requires Pow2(a) <= Pow2(b)
    ensures a <= b
  {
    if b < a {
      Pow2Monotone(b + 1, a);
    }
  }

  lemma WindowInside(pool: Range, plans: seq<Plan>, size: nat, r: Range, q: nat, start: int)
    requires PoolOk(pool) && PlansOk(pool, plans) && size in BLOCK_SIZES
    requires OnSale(pool, plans, Blocks(size), r) && Window(r, size, q) && start == r.net + Offset(size, q)
    ensures start % size == 0 && Within(Range(start, size), pool) && 0 <= start && start + size <= TWO32
  {
    var len := PrefixOf(size);
    RangeFacts(pool, plans, size, r, q);
    var k: nat :| r.size == Pow2(k);
    OffsetIs(size, q);
    Pow2Order(32 - len, k);
    MultipleOfMultiple(r.net, k, 32 - len);
    OffsetAligned(r.net, q, size);
    assert In(r, start) && In(r, start + size - 1);
  }

  /** Any free window of an accepted pool is aligned to its size, lies inside the pool, and its
      printed CIDR denotes exactly the returned addresses. */
  lemma WindowIsBlock(pool: Range, plans: seq<Plan>, size: nat, r: Range, q: nat)
    requires PoolOk(pool) && PlansOk(pool, plans) && size in BLOCK_SIZES
    requires OnSale(pool, plans, Blocks(size), r) && Window(r, size, q)
    ensures var start := r.net + Offset(size, q);
            && start % size == 0 && Within(Range(start, size), pool) && 0 <= start && start + size <= TWO32
            && Pow2(32 - PrefixOf(size)) == size
            && Ip4ToInt(IntToIp4(start)) == start
  {
    var start := r.net + Offset(size, q);
    WindowInside(pool, plans, size, r, q, start);
    Ip4RoundTrip(start);
  }

  lemma RangeFacts(pool: Range, plans: seq<Plan>, size: nat, r: Range, q: nat)
    requires PoolOk(pool) && PlansOk(pool, plans) && size in BLOCK_SIZES
    requires OnSale(pool, plans, Blocks(size), r) && Window(r, size, q)
    ensures r.size > 0 && IsPow2(r.size) && Aligned(r) && Within(r, pool)
  {
    if plans != [] {
      var i: nat :| i < |plans| && plans[i].mode == Blocks(size) && plans[i].range == r;
      assert PlanOk(pool, plans[i]);
    }
  }
}

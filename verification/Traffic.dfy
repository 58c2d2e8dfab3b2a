/** The traffic sampler (packages/provisioning/src/traffic-sampler.ts): deltas of cumulative counters,
    accumulated into five-minute buckets. */
module Traffic {
  import opened Common
  import opened Sums
  import opened Arith

  const BUCKET := 5 * 60 * 1000

  /** The start of the bucket that a time falls into. */
  function BucketOf(now: int): (b: int)
    ensures b % BUCKET == 0 && b <= now < b + BUCKET
  {
    (now / BUCKET) * BUCKET
  }

  datatype Dir = Rx | Tx

  datatype Pair = Pair(rx: nat, tx: nat)

  function Get(p: Pair, d: Dir): nat {
    if d == Rx then p.rx else p.tx
  }

  datatype Key = Key(tunnel: nat, bucket: int)

  /** One counter reading, taken by the tick at time `at`. */
  datatype Obs = Obs(tunnel: nat, count: Pair, at: int)

  /** tunnel_stats_last and bandwidth_usage. */
  datatype Store = Store(last: map<nat, Pair>, usage: map<Key, Pair>)

  /** A drop means the counter restarted: the current value is the delta. */
  function Delta(prev: nat, cur: nat): nat {
    if cur >= prev then cur - prev else cur
  }

  function Take(st: Store, o: Obs): Store {
    var last := st.last[o.tunnel := o.count];
    if o.tunnel !in st.last then st.(last := last) else
    var prev := st.last[o.tunnel];
    var d := Pair(Delta(prev.rx, o.count.rx), Delta(prev.tx, o.count.tx));
    if d == Pair(0, 0) then st.(last := last) else
    var k := Key(o.tunnel, BucketOf(o.at));
    var had := if k in st.usage then st.usage[k] else Pair(0, 0);
    Store(last, st.usage[k := Pair(had.rx + d.rx, had.tx + d.tx)])
  }

  ghost function Run(st: Store, os: seq<Obs>): Store
    decreases |os|
  {
    if os == [] then st else Take(Run(st, os[..|os| - 1]), os[|os| - 1])
  }

  /** What is on record for a tunnel, over all buckets. */
  ghost function Record(usage: map<Key, Pair>, t: nat, d: Dir): map<Key, int> {
    map k | k in usage && k.tunnel == t :: Get(usage[k], d)
  }

  ghost function Recorded(st: Store, t: nat, d: Dir): int {
    Total(Record(st.usage, t, d))
  }

  /** The readings of one tunnel's counter, in order. */
  ghost function Readings(os: seq<Obs>, t: nat, d: Dir): seq<nat>
    decreases |os|
  {
    if os == [] then [] else
    var o := os[|os| - 1];
    var init := Readings(os[..|os| - 1], t, d);
    if o.tunnel == t then init + [Get(o.count, d)] else init
  }

  ghost function Deltas(xs: seq<nat>): nat
    decreases |xs|
  {
    if |xs| < 2 then 0 else
    Deltas(xs[..|xs| - 1]) + Delta(xs[|xs| - 2], xs[|xs| - 1])
  }

  /** The values just before each observed drop. */
  ghost function Dropped(xs: seq<nat>): nat
    decreases |xs|
  {
    if |xs| < 2 then 0 else
    Dropped(xs[..|xs| - 1]) + if xs[|xs| - 1] < xs[|xs| - 2] then xs[|xs| - 2] else 0
  }

  lemma {:induction false} DeltasAre(xs: seq<nat>)
    requires xs != []
    ensures Deltas(xs) == xs[|xs| - 1] - xs[0] + Dropped(xs)
    decreases |xs|
  {
    if |xs| >= 2 {
      DeltasAre(xs[..|xs| - 1]);
    }
  }

  lemma DeltasSnoc(xs: seq<nat>, v: nat)
    ensures Deltas(xs + [v]) == Deltas(xs) + if xs == [] then 0 else Delta(xs[|xs| - 1], v)
  {
    assert (xs + [v])[..|xs|] == xs;
  }

  // ----- one reading -----

  ghost predicate LastIs(st: Store, t: nat, d: Dir, xs: seq<nat>) {
    (t in st.last <==> xs != []) && (t in st.last ==> Get(st.last[t], d) == xs[|xs| - 1])
  }

  lemma TakeRecords(st: Store, o: Obs, t: nat, d: Dir)
    ensures Recorded(Take(st, o), t, d) ==
            Recorded(st, t, d) + if o.tunnel == t && t in st.last then Delta(Get(st.last[t], d), Get(o.count, d)) else 0
  {
    var st' := Take(st, o);
    var k := Key(o.tunnel, BucketOf(o.at));
    if st'.usage != st.usage && o.tunnel == t {
      var m := Record(st.usage, t, d);
      var had := if k in m then m[k] else 0;
      var v := had + Delta(Get(st.last[t], d), Get(o.count, d));
      assert Record(st'.usage, t, d) == m[k := v];
      TotalSet(m, k, v);
    } else {
      assert Record(st'.usage, t, d) == Record(st.usage, t, d);
    }
  }

  ghost predicate Tracks(st: Store, t: nat, d: Dir, xs: seq<nat>) {
    Recorded(st, t, d) == Deltas(xs) && LastIs(st, t, d, xs)
  }

  lemma TakeTracks(st: Store, o: Obs, t: nat, d: Dir, xs: seq<nat>)
    requires Tracks(st, t, d, xs)
    ensures Tracks(Take(st, o), t, d, if o.tunnel == t then xs + [Get(o.count, d)] else xs)
  {
    TakeRecords(st, o, t, d);
    DeltasSnoc(xs, Get(o.count, d));
  }

  /** Over every sequence of readings, whatever buckets they fall into, a tunnel's record is the sum
      of its deltas. */
  lemma {:induction false} RecordIsDeltas(os: seq<Obs>, t: nat, d: Dir)
    ensures Tracks(Run(Store(map[], map[]), os), t, d, Readings(os, t, d))
    decreases |os|
  {
    if os == [] {
      TotalZero(Record(map[], t, d));
    } else {
      var n := |os| - 1;
      RecordIsDeltas(os[..n], t, d);
      TakeTracks(Run(Store(map[], map[]), os[..n]), os[n], t, d, Readings(os[..n], t, d));
    }
  }

  /** The record is last minus first plus the value before each observed drop. */
  lemma RecordIsLastMinusFirst(os: seq<Obs>, t: nat, d: Dir)
    requires Readings(os, t, d) != []
    ensures var xs := Readings(os, t, d);
            Recorded(Run(Store(map[], map[]), os), t, d) == xs[|xs| - 1] - xs[0] + Dropped(xs)
  {
    RecordIsDeltas(os, t, d);
    DeltasAre(Readings(os, t, d));
  }

  /** Two histories with the same readings leave the same record, however the ticks fall into buckets
      and whatever the other tunnels do. */
  lemma BucketsDoNotMatter(os: seq<Obs>, ps: seq<Obs>, t: nat, d: Dir)
    requires Readings(os, t, d) == Readings(ps, t, d)
    ensures Recorded(Run(Store(map[], map[]), os), t, d) == Recorded(Run(Store(map[], map[]), ps), t, d)
  {
    RecordIsDeltas(os, t, d);
    RecordIsDeltas(ps, t, d);
  }

  // ----- which bucket -----

  /** What the readings taken from `b` on, for five minutes, add to the tunnel's record. */
  ghost function InBucket(os: seq<Obs>, t: nat, d: Dir, b: int): nat
    decreases |os|
  {
    if os == [] then 0 else
    var n := |os| - 1;
    var before := Readings(os[..n], t, d);
    InBucket(os[..n], t, d, b) +
    if os[n].tunnel == t && before != [] && b <= os[n].at < b + 300_000
    then Delta(before[|before| - 1], Get(os[n].count, d)) else 0
  }

  ghost function Held(st: Store, t: nat, b: int, d: Dir): nat {
    if Key(t, b) in st.usage then Get(st.usage[Key(t, b)], d) else 0
  }

  lemma BucketIs(now: int, b: int)
    requires b % 300_000 == 0
    ensures BucketOf(now) == b <==> b <= now < b + 300_000
  {
    if b <= now < b + 300_000 { ModUnique(now, 300_000, b / 300_000, now - b); }
  }

  lemma TakeHolds(st: Store, o: Obs, t: nat, b: int, d: Dir)
    requires b % 300_000 == 0
    ensures Held(Take(st, o), t, b, d) ==
            Held(st, t, b, d) +
            if o.tunnel == t && t in st.last && b <= o.at < b + 300_000 then Delta(Get(st.last[t], d), Get(o.count, d))
            else 0
  {
    BucketIs(o.at, b);
  }

  /** Over every sequence of readings each five-minute bucket of a tunnel holds exactly the deltas of the
      readings taken in it, and there are no other buckets. */
  lemma {:induction false} BucketHolds(os: seq<Obs>, t: nat, b: int, d: Dir)
    ensures var st := Run(Store(map[], map[]), os);
            && (b % 300_000 == 0 ==> Held(st, t, b, d) == InBucket(os, t, d, b))
            && (b % 300_000 != 0 ==> Key(t, b) !in st.usage)
    decreases |os|
  {
    if os != [] {
      var n := |os| - 1;
      var st := Run(Store(map[], map[]), os[..n]);
      BucketHolds(os[..n], t, b, d);
      RecordIsDeltas(os[..n], t, d);
      if b % 300_000 == 0 { TakeHolds(st, os[n], t, b, d); }
    }
  }

  // ----- the bytes that really moved -----

  /** What happens to a kernel counter between two readings. */
  datatype Act = Moved(bytes: nat) | Reset

  ghost function Counter(c: nat, acts: seq<Act>): nat
    decreases |acts|
  {
    if acts == [] then c else
    var a := acts[|acts| - 1];
    if a.Reset? then 0 else Counter(c, acts[..|acts| - 1]) + a.bytes
  }

  ghost function Bytes(acts: seq<Act>): nat
    decreases |acts|
  {
    if acts == [] then 0 else
    var a := acts[|acts| - 1];
    Bytes(acts[..|acts| - 1]) + if a.Reset? then 0 else a.bytes
  }

  /** The bytes moved before the last reset; none when there is no reset. */
  ghost function Before(acts: seq<Act>): nat
    decreases |acts|
  {
    if acts == [] then 0 else
    var init := acts[..|acts| - 1];
    if acts[|acts| - 1].Reset? then Bytes(init) else Before(init)
  }

  ghost predicate HasReset(acts: seq<Act>) {
    exists i :: 0 <= i < |acts| && acts[i].Reset?
  }

  /** What one delta misses: the bytes before the last reset, and the old value when the counter has
      already grown past it again. */
  ghost function Missed(c: nat, acts: seq<Act>): nat {
    if !HasReset(acts) then 0 else
    Before(acts) + if Counter(c, acts) >= c then c else 0
  }

  lemma {:induction false} CounterIs(c: nat, acts: seq<Act>)
    ensures Counter(c, acts) == Bytes(acts) - Before(acts) + if HasReset(acts) then 0 else c
    ensures !HasReset(acts) ==> Before(acts) == 0
    decreases |acts|
  {
    if acts != [] {
      var init, a := acts[..|acts| - 1], acts[|acts| - 1];
      assert acts == init + [a];
      CounterIs(c, init);
      assert HasReset(acts) <==> HasReset(init) || a.Reset? by {
        if HasReset(init) { var i :| 0 <= i < |init| && init[i].Reset?; assert acts[i].Reset?; }
        assert forall i :: 0 <= i < |acts| && acts[i].Reset? && !a.Reset? ==> init[i].Reset?;
      }
    }
  }

  /** Delta plus what it misses is exactly what moved. */
  lemma DeltaAndMissed(c: nat, acts: seq<Act>)
    ensures Delta(c, Counter(c, acts)) + Missed(c, acts) == Bytes(acts)
  {
    CounterIs(c, acts);
  }

  /** Readings taken at the ends of stretches of counter activity. */
  ghost predicate Observed(xs: seq<nat>, stretches: seq<seq<Act>>) {
    |xs| == |stretches| + 1 && forall i :: 0 <= i < |stretches| ==> xs[i + 1] == Counter(xs[i], stretches[i])
  }

  ghost function TotalBytes(stretches: seq<seq<Act>>): nat
    decreases |stretches|
  {
    if stretches == [] then 0 else
    TotalBytes(stretches[..|stretches| - 1]) + Bytes(stretches[|stretches| - 1])
  }

  ghost function TotalMissed(xs: seq<nat>, stretches: seq<seq<Act>>): nat
    requires Observed(xs, stretches)
    decreases |stretches|
  {
    if stretches == [] then 0 else
    var n := |stretches| - 1;
    TotalMissed(xs[..n + 1], stretches[..n]) + Missed(xs[n], stretches[n])
  }

  lemma {:induction false} DeltasAndMissed(xs: seq<nat>, stretches: seq<seq<Act>>)
    requires Observed(xs, stretches)
    ensures Deltas(xs) + TotalMissed(xs, stretches) == TotalBytes(stretches)
    decreases |stretches|
  {
    if stretches != [] {
      var n := |stretches| - 1;
      assert xs[..|xs| - 1] == xs[..n + 1];
      DeltasAndMissed(xs[..n + 1], stretches[..n]);
      DeltaAndMissed(xs[n], stretches[n]);
    }
  }

  lemma {:induction false} NothingMissed(xs: seq<nat>, stretches: seq<seq<Act>>)
    requires Observed(xs, stretches) && forall i :: 0 <= i < |stretches| ==> !HasReset(stretches[i])
    ensures TotalMissed(xs, stretches) == 0
    decreases |stretches|
  {
    if stretches != [] {
      NothingMissed(xs[..|stretches|], stretches[..|stretches| - 1]);
    }
  }

  /** The sampler never over-counts: the record falls short of the bytes moved since the first reading
      by exactly what the resets hid, and by nothing when there was none. */
  lemma NeverOverCounts(os: seq<Obs>, t: nat, d: Dir, stretches: seq<seq<Act>>)
    requires Observed(Readings(os, t, d), stretches)
    ensures var r := Recorded(Run(Store(map[], map[]), os), t, d);
            && r + TotalMissed(Readings(os, t, d), stretches) == TotalBytes(stretches)
            && r <= TotalBytes(stretches)
            && ((forall i :: 0 <= i < |stretches| ==> !HasReset(stretches[i])) ==> r == TotalBytes(stretches))
  {
    RecordIsDeltas(os, t, d);
    DeltasAndMissed(Readings(os, t, d), stretches);
    if forall i :: 0 <= i < |stretches| ==> !HasReset(stretches[i]) {
      NothingMissed(Readings(os, t, d), stretches);
    }
  }

  // ----- the sampling loop -----

  datatype Sample = Sample(tunnel: nat, count: Pair)

  ghost function Stamped(samples: seq<Sample>, now: int): (os: seq<Obs>)
    ensures |os| == |samples| && forall i :: 0 <= i < |os| ==> os[i] == Obs(samples[i].tunnel, samples[i].count, now)
  {
    seq(|samples|, i requires 0 <= i < |samples| => Obs(samples[i].tunnel, samples[i].count, now))
  }

  class Sampler {
    var last: map<nat, Pair>
    var usage: map<Key, Pair>

    ghost function View(): Store
      reads this
    {
      Store(last, usage)
    }

    /** One sample: refresh the last-seen row, then add the delta to the bucket. */
    method AbsorbOne(s: Sample, now: int) returns (inserted: bool)
      modifies this
      ensures View() == Take(old(View()), Obs(s.tunnel, s.count, now))
      ensures inserted <==> usage != old(usage)
    {
      var seen := s.tunnel in last;
      var prev := if seen then last[s.tunnel] else Pair(0, 0);
      last := last[s.tunnel := s.count];
      if !seen { return false; }
      var dRx := if s.count.rx >= prev.rx then s.count.rx - prev.rx else s.count.rx;
      var dTx := if s.count.tx >= prev.tx then s.count.tx - prev.tx else s.count.tx;
      if dRx == 0 && dTx == 0 { return false; }
      var k := Key(s.tunnel, BucketOf(now));
      if k in usage {
        usage := usage[k := Pair(usage[k].rx + dRx, usage[k].tx + dTx)];
      } else {
        usage := usage[k := Pair(dRx, dTx)];
      }
      return true;
    }

    /** One gateway's samples of one tick. */
    method Absorb(samples: seq<Sample>, now: int) returns (inserted: nat)
      modifies this
      ensures View() == Run(old(View()), Stamped(samples, now))
      ensures inserted <= |samples|
    {
      inserted := 0;
      ghost var st := View();
      for i := 0 to |samples|
        invariant View() == Run(st, Stamped(samples[..i], now))
        invariant inserted <= i
      {
        assert Stamped(samples[..i + 1], now)[..i] == Stamped(samples[..i], now);
        var ins := AbsorbOne(samples[i], now);
        if ins { inserted := inserted + 1; }
      }
      assert samples[..|samples|] == samples;
    }
  }
}
